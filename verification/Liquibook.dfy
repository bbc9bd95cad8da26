/** The Liquibook order book without stops, replacement and depth. */
module Liquibook {
  import opened Orders
  import opened Matching
  import opened LiquiOrders
  import opened LiquiMatching
  import opened LiquiAons
  import opened LiquiSync
  import opened LiquiSteps

  class OrderBook {
    var bids: seq<Tracker>
    var asks: seq<Tracker>
    var market: nat
    var callbacks: seq<Callback>
    /** What the order listener has been told. */
    var told: seq<Event>
    /** Every order object the book has been given. */
    ghost var pool: set<SimpleOrder>
    /** Orders taken off their side although they had something open. */
    ghost var lost: set<SimpleOrder>

    ghost function Views(): Views
      reads this`pool, pool
    {
      map o | o in pool :: o.View()
    }

    ghost predicate Sides()
      reads this
    {
      MarketSide(true, bids) && MarketSide(false, asks)
    }

    ghost predicate Valid()
      reads this, pool
    {
      Sides() && callbacks == [] && InBook(bids, asks, lost, Views(), [])
    }

    constructor ()
      ensures Valid() && bids == [] && asks == [] && told == [] && pool == {} && lost == {}
    {
      bids, asks, market, callbacks, told, pool, lost := [], [], 0, [], [], {}, {};
    }

    /** The price of a trade: the resting order's, else the incoming one's, else the last one. */
    function CrossPrice(inbound: Tracker, current: Tracker): nat
      reads this
    {
      if current.order.price != MARKET then current.order.price
      else if inbound.order.price != MARKET then inbound.order.price
      else market
    }

    /** Trades as much as both sides have, and no more than `max`, if there is a price for it. */
    method CreateTrade(inbound: Tracker, current: Tracker, max: nat) returns (qty: nat, i: Tracker, c: Tracker)
      modifies this`market, this`callbacks
      ensures qty
        == if old(CrossPrice(inbound, current)) == MARKET then 0 else Min(max, Min(inbound.open, current.open))
      ensures i == inbound.(open := inbound.open - qty) && c == current.(open := current.open - qty)
      ensures market == if qty == 0 then old(market) else old(CrossPrice(inbound, current))
      ensures callbacks == old(callbacks)
        + if qty == 0 then [] else [OnFill(inbound.order, current.order, qty, old(CrossPrice(inbound, current)))]
    {
      var crossPrice := current.order.price;
      if crossPrice == MARKET { crossPrice := inbound.order.price; }
      if crossPrice == MARKET { crossPrice := market; }
      qty, i, c := 0, inbound, current;
      if crossPrice == MARKET { return; }
      qty := Min(max, Min(inbound.open, current.open));
      if qty > 0 {
        i := i.(open := i.open - qty);
        c := c.(open := c.open - qty);
        market := crossPrice;
        callbacks := callbacks + [OnFill(inbound.order, current.order, qty, crossPrice)];
      }
    }

    /** First pass over the deferred orders: proposes how much each gives, up to `max` in all. */
    method ProposeFills(deferred: seq<SimpleOrder>, max: nat, current: seq<Tracker>,
                        ghost buy: bool, ghost d: seq<nat>, ghost k: nat)
      returns (fills: seq<nat>, found: nat)
      requires Deferred(current, d, deferred, k) && MarketSide(buy, current)
      ensures fills == Offer(false, EntriesAt(current, d), max, 0)
      ensures found == Offered(false, EntriesAt(current, d), max, 0)
    {
      hide Deferred, Offering, Offer, Offered, MarketSide;
      InRange(current, d, deferred, k);
      ghost var ts := EntriesAt(current, d);
      OfferingStart(ts, max);
      fills, found := [], 0;
      var index := 0;
      while found < max && index < |deferred|
        invariant index == |fills| <= |deferred| && Offering(ts, fills, max, found)
        decreases |deferred| - index
      {
        DeferredAt(buy, current, d, deferred, k, index);
        OfferingNext(ts, fills, max, found);
        var tracker := current[Where(current, deferred[index])];
        var qty := tracker.open;
        if Wrap(found + qty) > max {
          if tracker.aon { qty := 0; } else { qty := max - found; }
        }
        found := Wrap(found + qty);
        fills := fills + [qty];
        index := index + 1;
      }
      OfferingEnd(ts, fills, max, found);
      fills := fills + seq(|deferred| - index, _ => 0);
    }

    /** Second pass over the deferred orders: executes the proposals until what has been found is traded. */
    method ExecuteFills(inbound: Tracker, deferred: seq<SimpleOrder>, fills: seq<nat>, found: nat,
                        current: seq<Tracker>, ghost buy: bool, ghost d: seq<nat>, ghost k: nat)
      returns (traded: nat, i: Tracker, c: seq<Tracker>, ghost f: seq<nat>)
      requires Deferred(current, d, deferred, k) && MarketSide(buy, current) && |fills| == |d|
      requires forall j :: 0 <= j < |d| ==> fills[j] <= current[d[j]].open
      modifies this`market, this`callbacks
      ensures f == Scatter(|current|, d, Give(fills, found, 0, inbound.open), |d|) && traded == Sum(f)
      ensures Dealt(current, inbound, i, c, f, old(callbacks), callbacks)
    {
      hide Deferred, MarketSide, Sum, Reduce, Kept, FillsOf, Scatter, Where, Give, Giving;
      InRange(current, d, deferred, k);
      NothingDealt(current, inbound, buy, callbacks);
      traded, i, c := 0, inbound, current;
      ghost var all := Give(fills, found, 0, inbound.open);
      Empty(|current|, d, all);
      GivingStart(fills, found, inbound.open);
      f := NoParts(|current|);
      var index := 0;
      while traded < found && index < |deferred|
        invariant index <= |d| && f == Scatter(|current|, d, all, index) && traded == Sum(f)
        invariant Giving(all, fills, found, index, traded, i.open)
        invariant Dealt(current, inbound, i, c, f, old(callbacks), callbacks)
      {
        DeferredAt(buy, current, d, deferred, k, index);
        GivingNext(all, fills, found, index, traded, i.open);
        DealNext(buy, current, inbound, i, c, d, deferred, k, all, index, old(callbacks), callbacks);
        var w := Where(c, deferred[index]);
        var qty, tracker;
        qty, i, tracker := CreateTrade(i, c[w], fills[index]);
        traded := traded + qty;
        c := if tracker.open == 0 then c[..w] + c[w + 1..] else c[w := tracker];
        index := index + 1;
        f := Scatter(|current|, d, all, index);
      }
      GivingEnd(all, fills, found, index, traded, i.open);
      ScatterRest(current, d, deferred, k, all, index);
    }

    /**
      * Trades with the deferred orders what the first pass proposes, if that is at least `min`;
      * both passes add quantities in 32 bits.
      */
    method TryCreateDeferredTrades(inbound: Tracker, deferred: seq<SimpleOrder>, max: nat, min: nat,
                                   current: seq<Tracker>, ghost buy: bool, ghost d: seq<nat>, ghost k: nat)
      returns (traded: nat, i: Tracker, c: seq<Tracker>, ghost f: seq<nat>)
      requires Deferred(current, d, deferred, k) && MarketSide(buy, current)
      modifies this`market, this`callbacks
      ensures f == Scatter(|current|, d, Gives(false, EntriesAt(current, d), max, min, inbound.open), |d|)
      ensures traded == Sum(f)
      ensures Dealt(current, inbound, i, c, f, old(callbacks), callbacks)
    {
      hide Deferred, MarketSide, Sum, Scatter, Dealt, Give, Offer, Offered;
      InRange(current, d, deferred, k);
      var fills, found := ProposeFills(deferred, max, current, buy, d, k);
      traded, i, c := 0, inbound, current;
      NothingDealt(current, inbound, buy, callbacks);
      f := NoParts(|current|);
      if found >= min && found <= max {
        traded, i, c, f := ExecuteFills(inbound, deferred, fills, found, current, buy, d, k);
      } else {
        NothingScattered(current, d, deferred, k);
      }
    }

    /** Both all-or-none: the deferred orders must give exactly what the current one leaves open. */
    method TakeWithAon(inbound: Tracker, deferred: seq<SimpleOrder>, entry: nat, current: seq<Tracker>,
                       ghost buy: bool, ghost d: seq<nat>)
      returns (i: Tracker, c: seq<Tracker>, matched: bool, ghost f: seq<nat>)
      requires Waiting(current, d, deferred, entry, buy) && inbound.open < WORD
      requires current[entry].aon && current[entry].open <= inbound.open
      modifies this`market, this`callbacks
      ensures Try(f, matched) == Tried(false, current, inbound, d, entry)
      ensures Dealt(current, inbound, i, c, f, old(callbacks), callbacks)
    {
      hide MarketSide, Deferred, Reduce, Kept, FillsOf, Scatter, Where, Sum, Gives, Tried;
      WaitingFacts(current, d, deferred, entry, buy);
      var maxQty := inbound.open - current[entry].open;
      var traded;
      traded, i, c, f := TryCreateDeferredTrades(inbound, deferred, maxQty, maxQty, current, buy, d, entry);
      matched := false;
      TriedAs(current, inbound, d, deferred, entry, f);
      if traded == maxQty {
        DealLast(buy, current, inbound, i, c, f, entry, current[entry].open, old(callbacks), callbacks);
        var w := Where(c, current[entry].order);
        var qty, tracker;
        qty, i, tracker := CreateTrade(i, c[w], ANY);
        c := c[..w] + c[w + 1..];
        f := f[entry := current[entry].open];
        matched := true;
      }
    }

    /** An all-or-none order against an ordinary one: the deferred orders must give at least what it cannot. */
    method TakeWithRegular(inbound: Tracker, deferred: seq<SimpleOrder>, entry: nat, current: seq<Tracker>,
                           ghost buy: bool, ghost d: seq<nat>)
      returns (i: Tracker, c: seq<Tracker>, matched: bool, ghost f: seq<nat>)
      requires Waiting(current, d, deferred, entry, buy) && inbound.open < WORD && !current[entry].aon
      modifies this`market, this`callbacks
      ensures Try(f, matched) == Tried(false, current, inbound, d, entry)
      ensures Dealt(current, inbound, i, c, f, old(callbacks), callbacks)
    {
      hide MarketSide, Deferred, Reduce, Kept, FillsOf, Scatter, Where, Sum, Gives, Tried;
      WaitingFacts(current, d, deferred, entry, buy);
      var open := current[entry].open;
      var needed := if inbound.open > open then inbound.open - open else 0;
      var traded;
      traded, i, c, f := TryCreateDeferredTrades(inbound, deferred, inbound.open, needed, current, buy, d, entry);
      matched := false;
      TriedAs(current, inbound, d, deferred, entry, f);
      if inbound.open <= Wrap(open + traded) {
        ghost var q := Min(inbound.open - traded, open);
        DealLast(buy, current, inbound, i, c, f, entry, q, old(callbacks), callbacks);
        var w := Where(c, current[entry].order);
        var qty, tracker;
        qty, i, tracker := CreateTrade(i, c[w], ANY);
        c := if tracker.open == 0 then c[..w] + c[w + 1..] else c[w := tracker];
        f := f[entry := q];
        matched := true;
      }
    }

    /** An entry as large as the order was fills what is left of it, and leaves the side with the rest. */
    method TakeDropped(inbound: Tracker, i: Tracker, c: seq<Tracker>, entry: nat, current: seq<Tracker>,
                       ghost buy: bool, ghost f: seq<nat>, ghost was: seq<Callback>)
      returns (done: Tracker, d: seq<Tracker>)
      requires MarketSide(buy, current) && entry < |current| == |f| && 0 < i.open < current[entry].open < WORD
      requires Within(current, inbound, f) && Reached(current, inbound, entry) && NothingFrom(f, entry)
      requires Dealt(current, inbound, i, c, f, was, callbacks)
      modifies this`market, this`callbacks
      ensures done.open == 0
      ensures Took(current, inbound, done, d, f[entry := i.open], {current[entry].order}, was, callbacks)
    {
      hide MarketSide, Within, Took, Where, NothingFrom, Reduce, FillsOf, Sum;
      DealDropped(buy, current, inbound, i, c, f, entry, was, callbacks);
      var w := Where(c, current[entry].order);
      var qty, left;
      qty, done, left := CreateTrade(i, c[w], ANY);
      d := c[..w] + c[w + 1..];
    }

    /**
      * An incoming all-or-none order walks along the side. Where no sum wraps it trades exactly
      * what it has open, or nothing. The answer `ok` is false if the source reads an erased entry.
      */
    method MatchAonOrder(inbound: Tracker, current: seq<Tracker>, ghost buy: bool)
      returns (i: Tracker, c: seq<Tracker>, matched: bool, aons: seq<SimpleOrder>, ok: bool, ghost f: seq<nat>)
      requires MarketSide(buy, current) && Incoming(inbound, buy) && inbound.aon
      modifies this`market, this`callbacks
      ensures ok == Defined(current, inbound)
      ensures ok ==> f == Aon(current, inbound).f && matched == Hits(current, inbound)
      ensures ok ==> Took(current, inbound, i, c, f, LostOf(current, inbound), old(callbacks), callbacks)
      ensures ok ==>
        MatchOf(current, inbound) == Pass(c, i, FillsOf(inbound.order, current, f), aons) && Listed(c, aons)
      ensures NoneWraps(current, inbound) ==> ok && AllOrNothing(current, inbound, f, matched)
    {
      hide MarketSide, Deferred, Reduce, FillsOf, Sum, AllOrNothing, NoneWraps, Leaving, Drops;
      hide OnWay, Walk, Along, Look, Again, Tried, Within, Listed, Matches;
      ghost var st := Start(current);
      AlongStart(current, inbound);
      NothingDealt(current, inbound, buy, callbacks);
      AonIsFair(current, inbound);
      i, c, matched, aons, ok := inbound, current, false, [], true;
      var deferred: seq<SimpleOrder>, deferredQty: nat := [], 0;
      var pos: nat := 0;
      TookStart(buy, current, inbound, callbacks);
      while pos < |current| && i.open > 0
        invariant Along(current, inbound, st, pos, deferred, deferredQty, aons, matched)
        invariant Took(current, inbound, i, c, st.f, DropOf(current, st), old(callbacks), callbacks)
        invariant st.fate == Normal || (st.fate == Dropped && i.open == 0)
        decreases |current| - pos
      {
        AlongFacts(buy, current, inbound, st, pos, deferred, deferredQty, aons, matched);
        TookPlain(current, inbound, i, c, st.f, old(callbacks), callbacks);
        var entry := pos;
        var tracker := current[entry];
        if !Matches(tracker.order.isBuy, tracker.order.price, inbound.order.price) { break; }
        var tooLarge := tracker.aon && tracker.open > inbound.open;
        var tries := !tooLarge && inbound.open <= Wrap(tracker.open + deferredQty);
        AlongNext(current, inbound, st, pos, deferred, deferredQty, aons, matched);
        ghost var next := Look(false, current, inbound, st);
        if tries && i.open < inbound.open {
          AgainIs(current, inbound, st, i.open);
          // Asks the deferred orders for the rest: the first of them is off its side.
          if !tracker.aon || tracker.open < inbound.open {
            AlongUndefined(current, inbound, next, pos + 1, deferred, deferredQty, aons, next.hit);
            ok, f := false, st.f;
            return;
          }
          i, c := TakeDropped(inbound, i, c, entry, current, buy, st.f, old(callbacks));
          matched := true;
        } else if tries {
          Untouched(current, inbound, i, c, st.f, buy, old(callbacks), callbacks);
          if tracker.aon {
            i, c, matched, f := TakeWithAon(inbound, deferred, entry, current, buy, st.d);
          } else {
            i, c, matched, f := TakeWithRegular(inbound, deferred, entry, current, buy, st.d);
          }
          AlongFacts(buy, current, inbound, next, pos + 1, deferred, deferredQty, aons, matched);
          TookPlain(current, inbound, i, c, f, old(callbacks), callbacks);
        } else if tooLarge {
          aons := aons + [tracker.order];
        } else {
          deferredQty := Wrap(deferredQty + tracker.open);
          deferred := deferred + [tracker.order];
        }
        st := next;
        pos := entry + 1;
      }
      AlongFacts(buy, current, inbound, st, pos, deferred, deferredQty, aons, matched);
      AlongEnds(buy, current, inbound, st, pos, deferred, deferredQty, aons, matched);
      f := st.f;
    }

    /** An ordinary incoming order trades with whatever its limit reaches, best first. */
    method MatchRegularOrder(inbound: Tracker, current: seq<Tracker>, ghost buy: bool)
      returns (i: Tracker, c: seq<Tracker>, matched: bool, aons: seq<SimpleOrder>, ghost fills: seq<Callback>)
      requires MarketSide(buy, current)
      modifies this`market, this`callbacks
      ensures RegularPass(current, inbound) == Pass(c, i, fills, aons) && callbacks == old(callbacks) + fills
      ensures matched <==> fills != []
    {
      hide MarketSide, RegularPass, Passing, Matches;
      ghost var p := RegularPass(current, inbound);
      fills := [];
      AllOpenSide(buy, current);
      PassStart(current, inbound);
      i, c, matched, aons := inbound, current, false, [];
      var pos := 0;
      while pos < |c| && i.open > 0
        invariant pos <= |c| && Passing(p, c, pos, i, fills, aons) && callbacks == old(callbacks) + fills
        invariant (matched <==> fills != []) && forall j :: 0 <= j < |c| ==>
          0 < c[j].open < WORD && c[j].order.price != MARKET
        decreases |c| - pos
      {
        var entry := pos;
        var tracker := c[entry];
        if !Matches(tracker.order.isBuy, tracker.order.price, i.order.price) { break; }
        if tracker.aon && tracker.open > i.open {
          PassDefer(p, c, entry, i, fills, aons);
          aons := aons + [tracker.order];
          pos := entry + 1;
        } else {
          PassTrade(p, c, entry, i, fills, aons);
          ghost var was := fills;
          fills := fills + [OnFill(i.order, tracker.order, Min(i.open, tracker.open), tracker.order.price)];
          Associate(old(callbacks), was, [OnFill(i.order, tracker.order, Min(i.open, tracker.open),
              tracker.order.price)]);
          var qty;
          qty, i, tracker := CreateTrade(i, tracker, ANY);
          matched := true;
          if tracker.open == 0 {
            c := c[..entry] + c[entry + 1..];
          } else {
            c := c[entry := tracker];
            pos := entry + 1;
          }
        }
      }
      PassStop(p, c, pos, i, fills, aons);
    }

    /** Matches an order with a side; all-or-none orders take and give all or nothing where no sum wraps. */
    method MatchOrder(inbound: Tracker, current: seq<Tracker>, ghost buy: bool)
      returns (i: Tracker, c: seq<Tracker>, matched: bool, aons: seq<SimpleOrder>, ok: bool, ghost f: seq<nat>)
      requires MarketSide(buy, current) && Incoming(inbound, buy)
      modifies this`market, this`callbacks, this`lost
      ensures ok == Defined(current, inbound)
      ensures ok ==> Took(current, inbound, i, c, f, LostOf(current, inbound), old(callbacks), callbacks)
      ensures ok ==> lost == old(lost) + LostOf(current, inbound) && Listed(c, aons) && MarketSide(buy, c)
      ensures ok ==> MatchOf(current, inbound) == Pass(c, i, FillsOf(inbound.order, current, f), aons)
      ensures ok ==> matched == Hits(current, inbound)
      ensures Sure(current, inbound) ==> ok && LostOf(current, inbound) == {} && Lawful(current, inbound, f)
      ensures ok ==> Tells(old(callbacks), callbacks, matched, Sure(current, inbound))
    {
      hide MarketSide, Taken, Within, Reduce, FillsOf, Sum, RegularPass, Listed, NoneWraps, Tells, Leaving, Drops;
      if inbound.aon {
        i, c, matched, aons, ok, f := MatchAonOrder(inbound, current, buy);
        AonHits(current, inbound);
        if !ok { return; }
      } else {
        ghost var fills;
        i, c, matched, aons, fills := MatchRegularOrder(inbound, current, buy);
        ok := true;
        PassedOver(buy, current, inbound);
        f := RegularIsTaken(buy, current, inbound);
        TakenWithin(current, inbound, f, Sum(f));
        SomeFills(inbound.order, current, f);
        TookPlain(current, inbound, i, c, f, old(callbacks), callbacks);
      }
      lost := lost + LostOf(current, inbound);
      TellsDealt(current, inbound, i, Reduce(current, f), f, old(callbacks), callbacks, matched,
          Sure(current, inbound));
      ReduceSide(buy, current, Leaving(current, f, LostOf(current, inbound)));
    }

    /** Tries the passed-over all-or-none orders, each as if it came in now, against the other side. */
    method CheckDeferredAons(aons: seq<SimpleOrder>, deferred: seq<Tracker>, other: seq<Tracker>, ghost buy: bool,
                             ghost base: Views)
      returns (d: seq<Tracker>, m: seq<Tracker>, matched: bool, ok: bool)
      requires MarketSide(buy, deferred) && MarketSide(!buy, other) && Listed(deferred, aons)
      requires InBook(deferred, other, lost, base, callbacks)
      modifies this`market, this`callbacks, this`lost
      ensures ok == Retry(deferred, other, aons).defined
      ensures ok ==> MarketSide(buy, d) && MarketSide(!buy, m) && InBook(d, m, lost, base, callbacks)
      ensures ok ==> Ends(Retry(deferred, other, aons), d, m, old(callbacks), callbacks, matched, old(lost), lost)
      ensures ok ==> Tells(old(callbacks), callbacks, matched, Secure(deferred, other))
      ensures Secure(deferred, other) ==> ok && lost == old(lost) && Secure(d, m)
    {
      hide MarketSide, InBook, Listed, Where, Retry, Secure, Tells, Ends, Goes, Step, Defined;
      d, m, matched, ok := deferred, other, false, true;
      var j := 0;
      GoesStart(deferred, other, aons, callbacks, lost);
      TellsNone(callbacks, Secure(deferred, other));
      assert aons[0..] == aons;
      while j < |aons|
        invariant j <= |aons| && MarketSide(buy, d) && MarketSide(!buy, m) && InBook(d, m, lost, base, callbacks)
        invariant Listed(d, aons[j..]) && ok
        invariant Goes(Retry(deferred, other, aons), d, m, aons[j..], old(callbacks), callbacks, matched,
            old(lost), lost)
        invariant Secure(deferred, other) ==> lost == old(lost) && Secure(d, m)
        invariant Tells(old(callbacks), callbacks, matched, Secure(deferred, other))
      {
        var hit;
        assert aons[j..][0] == aons[j] && aons[j..][1..] == aons[j + 1..];
        ghost var r, d0, m0, was, had := Retry(deferred, other, aons), d, m, callbacks, lost;
        d, m, hit, ok := TryDeferredAon(aons[j], d, m, buy, base, aons[j..]);
        if !ok {
          GoesNoFurther(r, d0, m0, aons[j..], old(callbacks), was, matched, old(lost), had);
          return;
        }
        GoesNext(r, d0, m0, d, m, aons[j..], old(callbacks), was, callbacks, matched, hit, old(lost), had, lost);
        TellsNext(old(callbacks), was, callbacks, matched, hit, Secure(deferred, other), Secure(d0, m0));
        matched := matched || hit;
        j := j + 1;
      }
      assert aons[j..] == [];
      GoesEnd(Retry(deferred, other, aons), d, m, old(callbacks), callbacks, matched, old(lost), lost);
      EndsDefined(Retry(deferred, other, aons), d, m, old(callbacks), callbacks, matched, old(lost), lost);
    }

    /** One passed-over order: it leaves its side if it is filled, else it stays with what it has left. */
    method TryDeferredAon(o: SimpleOrder, deferred: seq<Tracker>, other: seq<Tracker>, ghost buy: bool,
                          ghost base: Views, ghost aons: seq<SimpleOrder>)
      returns (d: seq<Tracker>, m: seq<Tracker>, hit: bool, ok: bool)
      requires MarketSide(buy, deferred) && MarketSide(!buy, other) && Listed(deferred, aons) && aons != []
      requires aons[0] == o
      requires InBook(deferred, other, lost, base, callbacks)
      modifies this`market, this`callbacks, this`lost
      ensures Where(deferred, o) < |deferred| && ok == Defined(other, deferred[Where(deferred, o)])
      ensures ok ==> MarketSide(buy, d) && MarketSide(!buy, m) && InBook(d, m, lost, base, callbacks)
      ensures ok ==> Listed(d, aons[1..])
      ensures ok ==> Step(deferred, other, o, d, m, old(callbacks), callbacks, hit, old(lost), lost)
      ensures ok ==> Tells(old(callbacks), callbacks, hit, Secure(deferred, other))
      ensures Secure(deferred, other) ==> ok && lost == old(lost) && Secure(d, m)
    {
      hide MarketSide, InBook, InStep, Listed, Took, Where, MayStay, LostOf, Defined;
      hide MatchOf, Hits, Secure, Sure, Lawful, Tells, FillsOf;
      FirstListed(buy, deferred, aons);
      var w := Where(deferred, o);
      var tracker := deferred[w];
      WithoutSide(buy, deferred, w);
      TakeOut(buy, deferred, other, w, lost, base, callbacks);
      ghost var was, had, drop := callbacks, lost, LostOf(other, tracker);
      d := deferred;
      var i, ignored;
      ghost var f;
      if Secure(deferred, other) { EntrySure(buy, deferred, other, w); }
      i, m, hit, ignored, ok, f := MatchOrder(tracker, other, !buy);
      if !ok { return; }
      TookInStep(!buy, other, Without(deferred, w), tracker, i, m, f, drop, had, base, was, callbacks);
      TookNowhere(!buy, other, tracker, i, m, f, drop, was, callbacks);
      TookLeft(other, tracker, i, m, f, drop, was, callbacks);
      if Secure(deferred, other) { TriedSecure(buy, deferred, other, w, i, m, f, was, callbacks); }
      if i.open == 0 {
        d := deferred[..w] + deferred[w + 1..];
        ListedWithout(buy, deferred, w, aons, aons[1..]);
        DoneInBook(!buy, m, d, i, lost, base, callbacks);
        Swap(m, d, lost, base, callbacks);
      } else {
        d := deferred[w := i];
        PutSide(buy, deferred, w, i);
        ListedPut(deferred, w, i, aons);
        PutInBook(buy, deferred, m, w, i, lost, base, callbacks);
      }
      TellsWeaker(was, callbacks, hit, Sure(other, tracker), Secure(deferred, other));
    }

    /**
      * Matches an order with the side `s`; what is left of it joins `own`, unless it is
      * immediate, and may satisfy passed-over orders.
      */
    method AddTo(inbound: Tracker, s: seq<Tracker>, own: seq<Tracker>, ghost buy: bool, ghost base: Views)
      returns (i: Tracker, d: seq<Tracker>, m: seq<Tracker>, matched: bool, ok: bool)
      requires MarketSide(buy, s) && MarketSide(!buy, own) && MayCome(s, own, inbound) && inbound.order.isBuy != buy
      requires InStep(s, own, inbound, lost, base, callbacks)
      modifies this`market, this`callbacks, this`lost
      ensures ok == Joins(own, s, inbound).defined
      ensures ok ==> MarketSide(buy, d) && MarketSide(!buy, m) && i.open <= inbound.open && i.ioc == inbound.ioc
      ensures ok && inbound.ioc ==> InStep(d, m, i, lost, base, callbacks)
      ensures ok && !inbound.ioc ==> InBook(d, m, lost, base, callbacks)
      ensures ok && inbound.ioc ==>
        Nowhere(d, inbound.order) && Nowhere(m, inbound.order) && i.order == inbound.order
      ensures ok ==> Ends(Joins(own, s, inbound), d, m, old(callbacks), callbacks, matched, old(lost), lost)
      ensures ok ==> i == MatchOf(s, inbound).inbound
      ensures ok ==> Tells(old(callbacks), callbacks, matched, Safe(own, s, inbound))
      ensures Safe(own, s, inbound) ==>
        ok && lost == old(lost) && Secure(d, m) && (inbound.aon ==> i.open == 0 || i.open == inbound.open)
    {
      hide MarketSide, InBook, InStep, Took, Where, Emplace, Listed, MatchOf, Hits, LostOf, Defined;
      hide Secure, Welcome, Sure, Taken, Tells, FillsOf, Retry, Joins, Ends;
      Comes(s, own, inbound);
      ghost var was, had, drop, p := callbacks, lost, LostOf(s, inbound), MatchOf(s, inbound);
      ghost var safe, fits := Safe(own, s, inbound), Sure(s, inbound);
      if safe { WelcomeSure(inbound, s); }
      JoinsDefined(own, s, inbound, p);
      var aons;
      ghost var f;
      d, m := s, own;
      i, d, matched, aons, ok, f := MatchOrder(inbound, s, buy);
      if !ok { return; }
      AfterMatch(buy, s, own, inbound, i, d, f, drop, had, base, was, callbacks);
      TookLeft(s, inbound, i, d, f, drop, was, callbacks);
      ghost var mid := callbacks;
      if safe { MatchedSafe(own, s, inbound, i, d, f, was, mid); }
      TellsWeaker(was, mid, matched, fits, safe);
      if i.open > 0 && !i.ioc {
        m := Emplace(inbound.order.isBuy, own, i);
        ghost var d0, m0 := d, m;
        var hit;
        d, m, hit, ok := CheckDeferredAons(aons, d, m, buy, base);
        if !ok { return; }
        JoinsThen(own, s, inbound, p, d, m, was, mid, callbacks, hit, had, lost);
        TellsNext(was, mid, callbacks, matched, hit, safe, Secure(d0, m0));
        matched := matched || hit;
      } else {
        JoinsNot(own, s, inbound, p, was, mid, had);
        EndsDefined(Joins(own, s, inbound), d, m, was, mid, matched, had, lost);
      }
    }

    /** Matches an order; what is left of it rests, unless it is immediate. */
    method AddOrder(inbound: Tracker, ghost base: Views) returns (i: Tracker, matched: bool, ok: bool)
      requires Sides() && MayCome(bids, asks, inbound)
      requires InStep(bids, asks, inbound, lost, base, callbacks)
      modifies this`bids, this`asks, this`market, this`callbacks, this`lost
      ensures ok == Joining(old(bids), old(asks), inbound).defined
      ensures ok ==> Sides() && i.open <= inbound.open
      ensures ok && inbound.ioc ==> InStep(bids, asks, i, lost, base, callbacks)
      ensures ok && !inbound.ioc ==> InBook(bids, asks, lost, base, callbacks)
      ensures ok && inbound.ioc ==>
        Nowhere(bids, inbound.order) && Nowhere(asks, inbound.order) && i.order == inbound.order
      ensures ok ==> var a := Adds(old(bids), old(asks), inbound);
        bids == a.bids && asks == a.asks && i == a.inbound && callbacks == old(callbacks) + a.fills
      ensures ok ==> var r := Joining(old(bids), old(asks), inbound); matched == r.hit && lost == old(lost) + r.lost
      ensures ok ==> Tells(old(callbacks), callbacks, matched, SafeIn(old(bids), old(asks), inbound))
      ensures SafeIn(old(bids), old(asks), inbound) ==>
        ok && lost == old(lost) && Secure(bids, asks) && (inbound.aon ==> i.open == 0 || i.open == inbound.open)
    {
      hide MarketSide, InBook, InStep, Joins, MatchOf, Nowhere, Secure, Safe, Tells, MayCome;
      StepSwap(bids, asks, inbound, lost, base, callbacks);
      if inbound.order.isBuy {
        ComeSwap(bids, asks, inbound);
        i, asks, bids, matched, ok := AddTo(inbound, asks, bids, false, base);
        SecureSwap(bids, asks);
        if !ok { return; }
        if !inbound.ioc { Swap(asks, bids, lost, base, callbacks); }
      } else {
        i, bids, asks, matched, ok := AddTo(inbound, bids, asks, true, base);
        if !ok { return; }
      }
      StepSwap(bids, asks, i, lost, base, callbacks);
    }

    /** Tells the listener and the order objects what has happened. */
    method CallbackNow(ghost base: Views)
      requires base == Views() && Named(callbacks, base)
      modifies this`callbacks, this`told, pool
      ensures callbacks == [] && told == old(told) + HeardAll(old(callbacks)) && Views().Keys == base.Keys
      ensures forall o :: o in base ==> Views()[o] == TouchAll(o, base[o], old(callbacks))
    {
      hide TouchAll, HeardAll;
      var working := callbacks;
      callbacks := [];
      StartPerforming(base, working);
      assert told + [] == told;
      var n := 0;
      while n < |working|
        invariant n <= |working| && callbacks == [] && told == old(told) + HeardAll(working[..n])
        invariant forall o :: o in pool ==> o.View() == TouchAll(o, base[o], working[..n])
      {
        assert working[..n + 1] == working[..n] + [working[n]];
        HeardConcat(working[..n], [working[n]]);
        HeardOne(working[n]);
        Associate(old(told), HeardAll(working[..n]), Heard(working[n]));
        forall o | o in pool
          ensures TouchAll(o, base[o], working[..n + 1]) == Touch(o, TouchAll(o, base[o], working[..n]), working[n])
        {
          TouchOne(o, base[o], working[..n], working[n]);
        }
        PerformCallback(working[n], base);
        n := n + 1;
      }
      assert working[..n] == working;
    }

    /** One callback: first the listener, then the order objects. */
    method PerformCallback(cb: Callback, ghost base: Views)
      requires base.Keys == pool && NamesKnown(cb, base)
      modifies this`told, pool
      ensures told == old(told) + Heard(cb)
      ensures forall o :: o in pool ==> o.View() == Touch(o, old(o.View()), cb)
    {
      told := told + Heard(cb);
      match cb
      case OnAccept(o) => o.Accept();
      case OnFill(o, m, q, px) =>
        var fillCost := Cost(q, px);
        m.Fill(q, fillCost);
        o.Fill(q, fillCost);
      case OnCancel(o) => o.Cancel();
      case _ =>
    }

    /** Accepts an order and matches it; what an immediate order leaves open is cancelled. */
    method Submit(order: SimpleOrder, aon: bool, ioc: bool, ghost was: Views) returns (matched: bool, ok: bool)
      requires Sides() && InBook(bids, asks, lost, was, []) && callbacks == [] && order !in was
      requires order.price != MARKET && 0 < order.qty < WORD
      modifies this`bids, this`asks, this`market, this`callbacks, this`lost
      ensures ok == Joining(old(bids), old(asks), Tracker(order, order.qty, aon, ioc)).defined
      ensures ok ==> Sides() && InBook(bids, asks, lost, was[order := FRESH], callbacks)
      ensures ok ==> var t := Tracker(order, order.qty, aon, ioc); var r := Joining(old(bids), old(asks), t);
        && Outcome(bids, asks, callbacks) == Submits(old(bids), old(asks), t)
        && matched == r.hit && lost == old(lost) + r.lost
      ensures ok && matched ==> HasFill(callbacks)
      ensures SafeIn(old(bids), old(asks), Tracker(order, order.qty, aon, ioc)) ==>
        ok && lost == old(lost) && Secure(bids, asks) && (HasFill(callbacks) ==> matched)
    {
      hide MarketSide, InStep, InBook, Where, TouchAll, Adds, Joining, Secure, SafeIn, Tells, HasFill;
      ghost var base := was[order := FRESH];
      var inbound := Tracker(order, order.qty, aon, ioc);
      ghost var safe := SafeIn(bids, asks, inbound);
      Stranger(bids, asks, lost, was, order);
      AcceptInStep(bids, asks, inbound, lost, was);
      callbacks := [OnAccept(order)];
      inbound, matched, ok := AddOrder(inbound, base);
      if !ok { return; }
      TellsFill(order, callbacks, matched, safe);
      if ioc && inbound.open > 0 {
        ResidualInBook(bids, asks, inbound, lost, base, callbacks);
        FillOrNot(callbacks, OnCancel(order));
        callbacks := callbacks + [OnCancel(order)];
      } else if ioc {
        DoneInBook(true, bids, asks, inbound, lost, base, callbacks);
      }
    }

    /**
      * Adds an order: matches it, rests what may rest, and performs the callbacks. The answer `ok`
      * is false if the source reads an erased entry on the way; nothing is said of the book then.
      */
    method Add(order: SimpleOrder, aon: bool, ioc: bool) returns (matched: bool, ok: bool)
      requires Valid() && order !in pool && order.View() == FRESH && order.price != MARKET && order.qty < WORD
      modifies this, pool, order
      ensures ok == (order.qty > 0 ==> Joining(old(bids), old(asks), Tracker(order, order.qty, aon, ioc)).defined)
      ensures ok ==> Valid() && pool == old(pool) + {order}
      ensures ok ==> var t := Tracker(order, order.qty, aon, ioc); var r := Outcomes(old(bids), old(asks), t);
        && bids == r.bids && asks == r.asks && told == old(told) + HeardAll(r.cbs)
        && matched == (order.qty > 0 && Joining(old(bids), old(asks), t).hit)
        && lost == (if order.qty > 0 then old(lost) + Joining(old(bids), old(asks), t).lost else old(lost))
        && (matched ==> FillTold(HeardAll(r.cbs)))
      ensures ok ==> |told| > |old(told)|
      ensures ok ==> told[|old(told)|] == if order.qty > 0 then Accepted(order.id) else Rejected(order.id)
      ensures var t := Tracker(order, order.qty, aon, ioc); SafeIn(old(bids), old(asks), t) ==>
        && ok && lost == old(lost) && Secure(bids, asks)
        && (FillTold(HeardAll(Outcomes(old(bids), old(asks), t).cbs)) ==> matched)
    {
      hide MarketSide, InStep, InBook, Where, TouchAll, HeardAll, Submits, Joining, Named, Secure, HasFill, FillTold;
      ghost var was := Views();
      ghost var base := was[order := FRESH];
      ViewsKnown(order, base);
      RefusedInBook(bids, asks, order, lost, Views());
      ghost var safe := SafeIn(bids, asks, Tracker(order, order.qty, aon, ioc));
      if safe { SafeSecure(bids, asks, Tracker(order, order.qty, aon, ioc)); }
      pool := pool + {order};
      matched, ok := false, true;
      if order.qty == 0 {
        callbacks := callbacks + [OnReject(order)];
        assert callbacks == [OnReject(order)];
        QuietCallback(bids, asks, lost, base, [], OnReject(order));
        NoFill(OnReject(order));
      } else {
        matched, ok := Submit(order, aon, ioc, was);
        if !ok { return; }
        QuietCallback(bids, asks, lost, base, callbacks, OnBookUpdate);
        FillOrNot(callbacks, OnBookUpdate);
        callbacks := callbacks + [OnBookUpdate];
      }
      ghost var cbs := callbacks;
      FillHeard(cbs);
      OutcomeHeard(old(bids), old(asks), Tracker(order, order.qty, aon, ioc));
      AllNamed(bids, asks, lost, base, cbs);
      CallbackNow(base);
      Performed(bids, asks, lost, base, cbs, Views());
    }

    lemma ViewsKnown(order: SimpleOrder, base: Views)
      requires order !in pool && order.View() == FRESH && base == Views()[order := FRESH]
      ensures order !in Views()
    {
    }

    /** The entry of an order: from the first entry at its price on, the one that holds it. */
    method FindOnMarket(order: SimpleOrder, side: seq<Tracker>) returns (pos: nat)
      requires MarketSide(order.isBuy, side) && order.price != MARKET
      ensures pos == Where(side, order)
    {
      hide Where;
      FindSplits(side, order);
      pos := FirstAt(side, order.price);
      while pos < |side|
        invariant pos <= |side| && (pos == |side| ==> Where(side, order) == |side|) && pos <= Where(side, order)
      {
        StillAhead(side, order, pos);
        if side[pos].order == order { return; }
        if Before(order.isBuy, order.price, side[pos].order.price) { return |side|; }
        pos := pos + 1;
      }
    }

    /** Takes a resting order off its side, and performs the callbacks. */
    method Cancel(order: SimpleOrder)
      requires Valid() && order in pool && order.price != MARKET
      modifies this, pool
      ensures Valid() && pool == old(pool) && lost == old(lost)
      ensures var side := if order.isBuy then old(bids) else old(asks); var w := Where(side, order);
        && (w == |side| ==> bids == old(bids) && asks == old(asks) && told == old(told) + [CancelRejected(order.id)])
        && (w < |side| ==> told == old(told) + [Cancelled(order.id)])
        && (w < |side| && order.isBuy ==> bids == Without(side, w) && asks == old(asks))
        && (w < |side| && !order.isBuy ==> asks == Without(side, w) && bids == old(bids))
      ensures Secure(old(bids), old(asks)) ==> Secure(bids, asks)
    {
      hide MarketSide, InBook, Where, TouchAll, Named, HeardAll, Secure;
      ghost var base := Views();
      var found := false;
      if order.isBuy {
        var bid := FindOnMarket(order, bids);
        if bid < |bids| {
          LeaveSide(true, bids, asks, bid, order, lost, base);
          bids := bids[..bid] + bids[bid + 1..];
          found := true;
        }
      } else {
        var ask := FindOnMarket(order, asks);
        if ask < |asks| {
          Swap(bids, asks, lost, base, []);
          SecureSwap(bids, asks);
          LeaveSide(false, asks, bids, ask, order, lost, base);
          asks := asks[..ask] + asks[ask + 1..];
          SecureSwap(bids, asks);
          Swap(asks, bids, lost, base, [OnCancel(order)]);
          found := true;
        }
      }
      if found {
        QuietCallback(bids, asks, lost, base, [OnCancel(order)], OnBookUpdate);
        callbacks := [OnCancel(order)] + [OnBookUpdate];
      } else {
        QuietCallback(bids, asks, lost, base, [], OnCancelReject(order));
        callbacks := [] + [OnCancelReject(order)];
      }
      CancelHeard(order, found);
      ghost var cbs := callbacks;
      AllNamed(bids, asks, lost, base, cbs);
      CallbackNow(base);
      Performed(bids, asks, lost, base, cbs, Views());
    }

    /** If no order has a quantity above 2^31, no sum wraps when another such order is added. */
    lemma SmallOrdersSafe(t: Tracker)
      requires Valid() && Whole(bids) && Whole(asks)
      requires (forall o :: o in pool ==> 2 * o.qty <= WORD) && 2 * t.open <= WORD
      ensures SafeIn(bids, asks, t)
    {
      forall x | x in bids + asks ensures 2 * x.open <= WORD {
        if x in bids {
          var i :| 0 <= i < |bids| && bids[i] == x;
          assert MayStay(true, bids[i]) && bids[i].order in Views();
        } else {
          var i :| 0 <= i < |asks| && asks[i] == x;
          assert MayStay(false, asks[i]) && asks[i].order in Views();
        }
      }
      HalfWordSafe(bids, asks, t);
    }

    /** An order object stands exactly while the book holds it, or has dropped it; and they agree on what is open. */
    lemma {:induction false} StandsIfHeld(o: SimpleOrder)
      requires Valid() && o in pool
      ensures Standing(o, o.View()) <==> OpenIn(bids, o) + OpenIn(asks, o) > 0 || o in lost
      ensures o in lost ==> Nowhere(bids, o) && Nowhere(asks, o)
      ensures Where(bids, o) < |bids| ==> o.OpenQty() == bids[Where(bids, o)].open > 0
      ensures Where(asks, o) < |asks| ==> o.OpenQty() == asks[Where(asks, o)].open > 0
    {
      assert Stands(o, OpenIn(bids, o) + OpenIn(asks, o), lost, TouchAll(o, Views()[o], []));
      if Where(bids, o) < |bids| { HeldOnce(true, bids, asks, o); }
      if Where(asks, o) < |asks| { HeldOnce(false, asks, bids, o); }
    }
  }
}
