/**
  * What the methods of the Liquibook order book rely on: the two passes over deferred orders
  * step by step, what a match leaves of the sides, and the order objects behind the callbacks.
  */
module LiquiSteps {
  import opened Orders
  import opened Matching
  import opened LiquiOrders
  import opened LiquiMatching
  import opened LiquiAons
  import opened LiquiSync

  /** No limit on a trade: the largest 32-bit quantity. */
  const ANY: nat := WORD - 1

  // ---- Facts about the sides ----

  /** An incoming order with a limit, for the side `buy` to trade with. */
  ghost predicate Incoming(t: Tracker, buy: bool) {
    0 < t.open < WORD && t.order.price != MARKET && t.order.isBuy != buy
  }

  lemma AllOpenSide(buy: bool, s: seq<Tracker>)
    requires MarketSide(buy, s)
    ensures forall i :: 0 <= i < |s| ==> 0 < s[i].open < WORD && s[i].order.price != MARKET
  {
    forall i | 0 <= i < |s| ensures 0 < s[i].open < WORD && s[i].order.price != MARKET { assert MayStay(buy, s[i]); }
  }

  lemma Associate<T>(a: seq<T>, b: seq<T>, c: seq<T>)
    ensures a + (b + c) == (a + b) + c
  {
  }

  lemma InRange(s: seq<Tracker>, d: seq<nat>, deferred: seq<SimpleOrder>, k: nat)
    requires Deferred(s, d, deferred, k)
    ensures |d| == |deferred| && forall j :: 0 <= j < |d| ==> d[j] < |s|
  {
  }

  // ---- What adding an order does, on values ----

  /** The order that an all-or-none order `t` has dropped from the side, if any. */
  ghost function LostOf(s: seq<Tracker>, t: Tracker): set<SimpleOrder> {
    if t.aon then DropOf(s, Aon(s, t)) else {}
  }

  ghost function DropOf(s: seq<Tracker>, st: Seek): set<SimpleOrder> {
    if st.fate == Dropped && 0 < st.k <= |s| then {s[st.k - 1].order} else {}
  }

  /** The match of the order `t` reads no entry that it has erased. */
  ghost predicate Defined(s: seq<Tracker>, t: Tracker) {
    t.aon ==> Aon(s, t).fate != Undefined
  }

  /** What the incoming order `t` does to the side. */
  ghost function MatchOf(s: seq<Tracker>, t: Tracker): Pass {
    if t.aon then
      var w := Aon(s, t);
      Pass(Reduce(s, Leaving(s, w.f, LostOf(s, t))), t.(open := t.open - Sum(w.f)), FillsOf(t.order, s, w.f),
           OrdersAt(s, w.e))
    else RegularPass(s, t)
  }

  /** Whether the match counts as one; a try that trades in part does not. */
  ghost predicate Hits(s: seq<Tracker>, t: Tracker) {
    if t.aon then Aon(s, t).hit else RegularPass(s, t).fills != []
  }

  /**
    * The sides, the fills and whether there was a match, after orders have been matched against `m`,
    * and the orders dropped; all of it only if the matches are defined.
    */
  datatype Joined = Joined(d: seq<Tracker>, m: seq<Tracker>, fills: seq<Callback>, hit: bool, lost: set<SimpleOrder>,
                           defined: bool)

  /** The side `d` after its order at `w` has been matched: what is left of the order stays where it was. */
  function Back(d: seq<Tracker>, w: nat, i: Tracker): seq<Tracker>
    requires w < |d|
  {
    if i.open == 0 then Without(d, w) else d[w := i]
  }

  /** The rest `r` with the match of `t` with the side `s` in front. */
  ghost function Behind(s: seq<Tracker>, t: Tracker, r: Joined): Joined {
    r.(fills := MatchOf(s, t).fills + r.fills, hit := Hits(s, t) || r.hit, lost := LostOf(s, t) + r.lost)
  }

  /** The passed-over orders `aons` of `d` matched against `m`, one after the other. */
  ghost function Retry(d: seq<Tracker>, m: seq<Tracker>, aons: seq<SimpleOrder>): Joined
    decreases |aons|
  {
    if aons == [] then Joined(d, m, [], false, {}, true)
    else if Where(d, aons[0]) == |d| then Retry(d, m, aons[1..])
    else
      var w := Where(d, aons[0]);
      var p := MatchOf(m, d[w]);
      if !Defined(m, d[w]) then Joined(d, m, [], false, {}, false)
      else Behind(m, d[w], Retry(Back(d, w, p.inbound), p.current, aons[1..]))
  }

  /** The order `t` matched against the side `s`; what may rest joins `own`, and the passed-over orders are tried. */
  ghost function Joins(own: seq<Tracker>, s: seq<Tracker>, t: Tracker): Joined {
    var p := MatchOf(s, t);
    if !Defined(s, t) then Joined(s, own, [], false, {}, false)
    else if p.inbound.open > 0 && !t.ioc then
      Behind(s, t, Retry(p.current, Emplace(t.order.isBuy, own, p.inbound), p.deferred))
    else Joined(p.current, own, p.fills, Hits(s, t), LostOf(s, t), true)
  }

  /** What has come of a list of passed-over orders. */
  ghost predicate Ends(r: Joined, d: seq<Tracker>, m: seq<Tracker>, was: seq<Callback>, now: seq<Callback>, hit: bool,
                       had: set<SimpleOrder>, lost: set<SimpleOrder>) {
    r.defined && d == r.d && m == r.m && now == was + r.fills && hit == r.hit && lost == had + r.lost
  }

  /** The sides, the callbacks, the answer and the dropped orders on the way to `r`, with `aons` still to be tried. */
  ghost predicate Goes(r: Joined, d: seq<Tracker>, m: seq<Tracker>, aons: seq<SimpleOrder>, was: seq<Callback>,
                       now: seq<Callback>, hit: bool, had: set<SimpleOrder>, lost: set<SimpleOrder>) {
    var rest := Retry(d, m, aons);
    && r.defined == rest.defined
    && (r.defined ==> r.d == rest.d && r.m == rest.m && was + r.fills == now + rest.fills)
    && (r.defined ==> r.hit == (hit || rest.hit) && had + r.lost == lost + rest.lost)
  }

  /** One passed-over order `o` of `d` has been matched against `m`. */
  ghost predicate Step(d: seq<Tracker>, m: seq<Tracker>, o: SimpleOrder, d': seq<Tracker>, m': seq<Tracker>,
                       was: seq<Callback>, now: seq<Callback>, hit: bool,
                       had: set<SimpleOrder>, lost: set<SimpleOrder>) {
    var w := Where(d, o);
    w < |d| &&
    var p := MatchOf(m, d[w]);
    && Defined(m, d[w]) && d' == Back(d, w, p.inbound) && m' == p.current && now == was + p.fills
    && hit == Hits(m, d[w]) && lost == had + LostOf(m, d[w])
  }

  lemma GoesStart(d: seq<Tracker>, m: seq<Tracker>, aons: seq<SimpleOrder>, cbs: seq<Callback>, lost: set<SimpleOrder>)
    ensures Goes(Retry(d, m, aons), d, m, aons, cbs, cbs, false, lost, lost)
  {
  }

  lemma {:induction false} RetryNext(d: seq<Tracker>, m: seq<Tracker>, aons: seq<SimpleOrder>)
    requires aons != [] && Where(d, aons[0]) < |d| && Defined(m, d[Where(d, aons[0])])
    ensures var w := Where(d, aons[0]); var p := MatchOf(m, d[w]);
      Retry(d, m, aons) == Behind(m, d[w], Retry(Back(d, w, p.inbound), p.current, aons[1..]))
  {
    hide MatchOf, Hits, Back, Behind, Defined;
  }

  lemma GoesNext(r: Joined, d: seq<Tracker>, m: seq<Tracker>, d': seq<Tracker>, m': seq<Tracker>,
                 aons: seq<SimpleOrder>, start: seq<Callback>, was: seq<Callback>, now: seq<Callback>,
                 hit: bool, more: bool,
                 had: set<SimpleOrder>, lost: set<SimpleOrder>, lost': set<SimpleOrder>)
    requires Goes(r, d, m, aons, start, was, hit, had, lost) && aons != []
    requires Step(d, m, aons[0], d', m', was, now, more, lost, lost')
    ensures Goes(r, d', m', aons[1..], start, now, hit || more, had, lost')
  {
    hide MatchOf, Hits, Back, Retry, LostOf, Defined;
    RetryNext(d, m, aons);
    var p, rest := MatchOf(m, d[Where(d, aons[0])]), Retry(d', m', aons[1..]);
    Associate(was, p.fills, rest.fills);
  }

  /** A match that is not defined leaves the whole undefined. */
  lemma {:induction false} GoesNoFurther(r: Joined, d: seq<Tracker>, m: seq<Tracker>, aons: seq<SimpleOrder>,
                                         was: seq<Callback>, now: seq<Callback>, hit: bool,
                                         had: set<SimpleOrder>, lost: set<SimpleOrder>)
    requires Goes(r, d, m, aons, was, now, hit, had, lost) && aons != []
    requires Where(d, aons[0]) < |d| && !Defined(m, d[Where(d, aons[0])])
    ensures !r.defined
  {
    hide MatchOf, Hits, Back, Behind, Defined;
  }

  lemma {:induction false} GoesEnd(r: Joined, d: seq<Tracker>, m: seq<Tracker>, was: seq<Callback>, now: seq<Callback>,
                                   hit: bool, had: set<SimpleOrder>, lost: set<SimpleOrder>)
    requires Goes(r, d, m, [], was, now, hit, had, lost)
    ensures Ends(r, d, m, was, now, hit, had, lost)
  {
    assert now + [] == now;
  }

  lemma EndsDefined(r: Joined, d: seq<Tracker>, m: seq<Tracker>, was: seq<Callback>, now: seq<Callback>, hit: bool,
                    had: set<SimpleOrder>, lost: set<SimpleOrder>)
    requires Ends(r, d, m, was, now, hit, had, lost)
    ensures r.defined
  {
  }

  /** The order has been matched, and what is left of it does not rest. */
  lemma JoinsNot(own: seq<Tracker>, s: seq<Tracker>, t: Tracker, p: Pass, was: seq<Callback>, now: seq<Callback>,
                 had: set<SimpleOrder>)
    requires p == MatchOf(s, t) && Defined(s, t) && now == was + p.fills && (p.inbound.open == 0 || t.ioc)
    ensures Ends(Joins(own, s, t), p.current, own, was, now, Hits(s, t), had, had + LostOf(s, t))
  {
    hide MatchOf, Hits, LostOf, Defined;
  }

  /** The order has been matched and rests, and the passed-over orders have been tried. */
  lemma JoinsThen(own: seq<Tracker>, s: seq<Tracker>, t: Tracker, p: Pass, d: seq<Tracker>, m: seq<Tracker>,
                  was: seq<Callback>, mid: seq<Callback>, now: seq<Callback>, hit: bool,
                  had: set<SimpleOrder>, lost: set<SimpleOrder>)
    requires p == MatchOf(s, t) && Defined(s, t) && mid == was + p.fills && p.inbound.open > 0 && !t.ioc
    requires Ends(Retry(p.current, Emplace(t.order.isBuy, own, p.inbound), p.deferred), d, m, mid, now, hit,
                  had + LostOf(s, t), lost)
    ensures Ends(Joins(own, s, t), d, m, was, now, Hits(s, t) || hit, had, lost)
  {
    hide MatchOf, Hits, Retry, Emplace, LostOf, Defined;
    var r := Retry(p.current, Emplace(t.order.isBuy, own, p.inbound), p.deferred);
    Associate(was, p.fills, r.fills);
    assert had + LostOf(s, t) + r.lost == had + (LostOf(s, t) + r.lost);
  }

  /** Whether the whole is defined. */
  lemma JoinsDefined(own: seq<Tracker>, s: seq<Tracker>, t: Tracker, p: Pass)
    requires p == MatchOf(s, t)
    ensures !Defined(s, t) ==> !Joins(own, s, t).defined
    ensures Defined(s, t) && p.inbound.open > 0 && !t.ioc ==>
      Joins(own, s, t).defined == Retry(p.current, Emplace(t.order.isBuy, own, p.inbound), p.deferred).defined
  {
    hide MatchOf, Hits, Retry, Emplace, LostOf, Defined;
  }

  /** What adding the order `t` comes to: the side it is matched against, and the one it may join. */
  ghost function Joining(bids: seq<Tracker>, asks: seq<Tracker>, t: Tracker): Joined {
    if t.order.isBuy then Joins(bids, asks, t) else Joins(asks, bids, t)
  }

  /** The book after the order `t` has been added. */
  ghost function Adds(bids: seq<Tracker>, asks: seq<Tracker>, t: Tracker): Added {
    var r := Joining(bids, asks, t);
    if t.order.isBuy then Added(r.m, r.d, MatchOf(asks, t).inbound, r.fills)
    else Added(r.d, r.m, MatchOf(bids, t).inbound, r.fills)
  }

  /** Without all-or-none orders this is regular matching alone. */
  lemma PlainAdds(bids: seq<Tracker>, asks: seq<Tracker>, t: Tracker)
    requires NoAons(bids) && NoAons(asks) && !t.aon
    ensures Adds(bids, asks, t) == PlainAdd(bids, asks, t)
    ensures Joining(bids, asks, t).defined && Joining(bids, asks, t).lost == {}
  {
    hide RegularPass, NoAons;
    var s := if t.order.isBuy then asks else bids;
    NoneDeferred(s, t);
    var p := RegularPass(s, t);
    assert p.fills + [] == p.fills;
  }

  /** The callbacks of an order that is not refused, up to the notice that the book has changed. */
  ghost function Submits(bids: seq<Tracker>, asks: seq<Tracker>, t: Tracker): Outcome {
    var a := Adds(bids, asks, t);
    Outcome(a.bids, a.asks,
        [OnAccept(t.order)] + a.fills + if t.ioc && a.inbound.open > 0 then [OnCancel(t.order)] else [])
  }

  /** What the book does with a new order. */
  ghost function Outcomes(bids: seq<Tracker>, asks: seq<Tracker>, t: Tracker): Outcome {
    if t.order.qty == 0 then Outcome(bids, asks, [OnReject(t.order)])
    else
      var r := Submits(bids, asks, t);
      r.(cbs := r.cbs + [OnBookUpdate])
  }

  lemma PlainOutcomes(bids: seq<Tracker>, asks: seq<Tracker>, o: SimpleOrder, ioc: bool)
    requires NoAons(bids) && NoAons(asks)
    ensures Outcomes(bids, asks, Tracker(o, o.qty, false, ioc)) == PlainOutcome(bids, asks, o, ioc)
    ensures var r := Joining(bids, asks, Tracker(o, o.qty, false, ioc)); r.defined && r.lost == {}
  {
    hide Adds, PlainAdd, NoAons, Joining;
    PlainAdds(bids, asks, Tracker(o, o.qty, false, ioc));
  }

  // ---- The two passes over the deferred orders ----

  /** The entry a deferred iterator denotes. */
  lemma {:induction false} DeferredAt(buy: bool, s: seq<Tracker>, d: seq<nat>, deferred: seq<SimpleOrder>, k: nat,
                                      j: nat)
    requires Deferred(s, d, deferred, k) && MarketSide(buy, s) && j < |deferred|
    ensures |d| == |deferred| && d[j] < |s| && Where(s, deferred[j]) == d[j]
    ensures forall i :: 0 <= i < |d| ==> d[i] < |s|
    ensures EntriesAt(s, d)[j] == s[d[j]] && s[d[j]].open > 0
  {
    WhereAt(buy, s, d[j]);
  }

  lemma {:induction false} SumAppend(f: seq<nat>, q: nat)
    ensures Sum(f + [q]) == Sum(f) + q
  {
    if f == [] {
      assert f + [q] == [q] && [q][1..] == [];
    } else {
      SumAppend(f[1..], q);
      assert (f + [q])[1..] == f[1..] + [q];
    }
  }

  lemma {:induction false} SumZeros(f: seq<nat>, n: nat)
    ensures Sum(f + seq(n, _ => 0)) == Sum(f)
  {
    if n > 0 {
      SumZeros(f, n - 1);
      assert f + seq(n, _ => 0) == (f + seq(n - 1, _ => 0)) + [0];
      SumAppend(f + seq(n - 1, _ => 0), 0);
    } else {
      assert f + seq(n, _ => 0) == f;
    }
  }

  /** The first pass after the proposals `fills`. */
  ghost predicate Offering(ts: seq<Tracker>, fills: seq<nat>, max: nat, found: nat) {
    && |fills| <= |ts|
    && Offer(false, ts, max, 0) == fills + Offer(false, ts[|fills|..], max, found)
    && Offered(false, ts, max, 0) == Offered(false, ts[|fills|..], max, found)
  }

  lemma OfferingStart(ts: seq<Tracker>, max: nat)
    ensures Offering(ts, [], max, 0)
  {
    assert ts[0..] == ts;
    assert [] + Offer(false, ts, max, 0) == Offer(false, ts, max, 0);
  }

  lemma OfferingNext(ts: seq<Tracker>, fills: seq<nat>, max: nat, found: nat)
    requires Offering(ts, fills, max, found) && |fills| < |ts| && found < max
    ensures var q := OfferOf(false, ts[|fills|], max, found); Offering(ts, fills + [q], max, Wrap(found + q))
  {
    hide Offer, Offered, OfferOf, Wrap;
    var q := OfferOf(false, ts[|fills|], max, found);
    OfferStep(ts, |fills|, max, found);
    Associate(fills, [q], Offer(false, ts[|fills| + 1..], max, Wrap(found + q)));
  }

  lemma {:induction false} OfferStep(ts: seq<Tracker>, n: nat, max: nat, found: nat)
    requires n < |ts| && found < max
    ensures var q := OfferOf(false, ts[n], max, found);
      && Offer(false, ts[n..], max, found) == [q] + Offer(false, ts[n + 1..], max, Wrap(found + q))
      && Offered(false, ts[n..], max, found) == Offered(false, ts[n + 1..], max, Wrap(found + q))
  {
    hide Offer, Offered, OfferOf;
    assert ts[n..][0] == ts[n] && ts[n..][1..] == ts[n + 1..];
    OfferCons(false, ts[n..], max, found);
  }

  lemma OfferingEnd(ts: seq<Tracker>, fills: seq<nat>, max: nat, found: nat)
    requires Offering(ts, fills, max, found) && (|fills| == |ts| || found >= max)
    ensures fills + seq(|ts| - |fills|, _ => 0) == Offer(false, ts, max, 0) && found == Offered(false, ts, max, 0)
  {
    OfferEnd(ts[|fills|..], max, found);
  }

  /** After the first pass has ended nothing more is proposed. */
  lemma {:induction false} OfferEnd(ts: seq<Tracker>, max: nat, found: nat)
    requires ts == [] || found >= max
    ensures Offer(false, ts, max, found) == seq(|ts|, _ => 0) && Offered(false, ts, max, found) == found
  {
    if ts != [] { OfferEnd(ts[1..], max, found); }
  }

  /** The second pass from position `n` on, after `traded` has been traded. */
  ghost predicate Giving(all: seq<nat>, p: seq<nat>, found: nat, n: nat, traded: nat, open: nat) {
    && n <= |all| == |p| && all[n..] == Give(p[n..], found, traded, open)
    && traded == Sum(all[..n]) && Sum(all) == traded + Sum(all[n..])
  }

  lemma GivingStart(p: seq<nat>, found: nat, open: nat)
    ensures Giving(Give(p, found, 0, open), p, found, 0, 0, open)
  {
    var all := Give(p, found, 0, open);
    assert p[0..] == p && all[0..] == all && all[..0] == [];
  }

  lemma GivingNext(all: seq<nat>, p: seq<nat>, found: nat, n: nat, traded: nat, open: nat)
    requires Giving(all, p, found, n, traded, open) && n < |p| && traded < found
    ensures all[n] == Min(p[n], open) && Giving(all, p, found, n + 1, traded + all[n], open - all[n])
  {
    assert p[n..][0] == p[n] && p[n..][1..] == p[n + 1..] && all[n..][0] == all[n] && all[n..][1..] == all[n + 1..];
    SumNext(all, n);
    SumSplit(all, n + 1);
  }

  lemma GivingEnd(all: seq<nat>, p: seq<nat>, found: nat, n: nat, traded: nat, open: nat)
    requires Giving(all, p, found, n, traded, open) && (traded >= found || n == |p|)
    ensures Sum(all[n..]) == 0 && Sum(all) == traded
  {
    GivesNoMore(p[n..], found, traded, open);
  }

  lemma {:induction false} Empty(len: nat, d: seq<nat>, p: seq<nat>)
    requires |d| == |p| && forall j :: 0 <= j < |d| ==> d[j] < len
    ensures Scatter(len, d, p, 0) == NoParts(len)
  {
  }

  /** The order at `entry` gives its part after the deferred ones. */
  lemma TakeLast(s: seq<Tracker>, f: seq<nat>, entry: nat, x: SimpleOrder, buy: bool, q: nat)
    requires MarketSide(buy, s) && entry < |s| == |f| && NothingFrom(f, entry) && q <= s[entry].open
    ensures var r := Reduce(s, f); var w := Where(r, s[entry].order);
      && w < |r| && r[w] == s[entry] && Sum(f[entry := q]) == Sum(f) + q
      && Reduce(s, f[entry := q])
        == (if q == s[entry].open then r[..w] + r[w + 1..] else r[w := s[entry].(open := s[entry].open - q)])
    ensures FillsOf(x, s, f[entry := q])
      == FillsOf(x, s, f) + (if q == 0 then [] else [OnFill(x, s[entry].order, q, s[entry].order.price)])
  {
    AllOpenSide(buy, s);
    WhereReduced(buy, s, f, entry);
    ReduceAt(s, f, entry);
    ReduceStep(s, f, entry, q);
    SumStep(f, entry, q);
    if q > 0 { FillsStep(x, s, f, entry, q); } else { assert f[entry := 0] == f; }
  }

  // ---- What a match leaves ----

  /** The fill reported of a trade, if anything is traded. */
  function Told(x: SimpleOrder, m: SimpleOrder, qty: nat): seq<Callback> {
    if qty == 0 then [] else [OnFill(x, m, qty, m.price)]
  }

  /** The parts `f` have been taken from the side, reported, and given to the incoming order. */
  ghost predicate Dealt(s: seq<Tracker>, inbound: Tracker, i: Tracker, c: seq<Tracker>, f: seq<nat>, was: seq<Callback>,
                        now: seq<Callback>) {
    && |f| == |s| && Sum(f) <= inbound.open && i == inbound.(open := inbound.open - Sum(f))
    && c == Reduce(s, f) && now == was + FillsOf(inbound.order, s, f)
  }

  /** The parts respect limits and what there is; the orders `drop` have left the side with something left. */
  ghost predicate Took(s: seq<Tracker>, inbound: Tracker, i: Tracker, c: seq<Tracker>, f: seq<nat>,
                       drop: set<SimpleOrder>, was: seq<Callback>, now: seq<Callback>) {
    && Within(s, inbound, f) && Dealt(s, inbound, i, Reduce(s, f), f, was, now)
    && Drops(s, f, drop) && c == Reduce(s, Leaving(s, f, drop))
  }

  /** Nothing is dropped. */
  lemma TookPlain(s: seq<Tracker>, inbound: Tracker, i: Tracker, c: seq<Tracker>, f: seq<nat>,
                  was: seq<Callback>, now: seq<Callback>)
    ensures Within(s, inbound, f) && Dealt(s, inbound, i, c, f, was, now) <==> Took(s, inbound, i, c, f, {}, was, now)
  {
    if |f| == |s| { assert Leaving(s, f, {}) == f; }
  }

  lemma TookStart(buy: bool, s: seq<Tracker>, inbound: Tracker, was: seq<Callback>)
    requires MarketSide(buy, s)
    ensures Took(s, inbound, inbound, s, Start(s).f, DropOf(s, Start(s)), was, was)
  {
    hide Reduce, FillsOf, Drops, Leaving, Sum;
    NothingDealt(s, inbound, buy, was);
    StartOnWay(s, inbound);
    TookPlain(s, inbound, inbound, s, NoParts(|s|), was, was);
  }

  lemma NothingDealt(s: seq<Tracker>, inbound: Tracker, buy: bool, was: seq<Callback>)
    requires MarketSide(buy, s)
    ensures Dealt(s, inbound, inbound, s, NoParts(|s|), was, was) && Sum(NoParts(|s|)) == 0
  {
    AllOpenSide(buy, s);
    NothingTaken(inbound.order, s);
  }

  /** The next deferred order gives its part. */
  lemma {:induction false} DealNext(buy: bool, s: seq<Tracker>, inbound: Tracker, i: Tracker, c: seq<Tracker>,
                                    d: seq<nat>, deferred: seq<SimpleOrder>, k: nat, p: seq<nat>, n: nat,
                                    was: seq<Callback>, now: seq<Callback>)
    requires MarketSide(buy, s) && Deferred(s, d, deferred, k) && n < |d| == |p| && p[n] <= s[d[n]].open
    requires p[n] <= i.open
    requires Dealt(s, inbound, i, c, Scatter(|s|, d, p, n), was, now)
    ensures var w, t := Where(c, deferred[n]), s[d[n]];
      && w < |c| && c[w] == t && t.open > 0 && t.order.price != MARKET
      && Sum(Scatter(|s|, d, p, n + 1)) == Sum(Scatter(|s|, d, p, n)) + p[n]
      && Dealt(s, inbound, i.(open := i.open - p[n]),
          if t.open == p[n] then c[..w] + c[w + 1..] else c[w := t.(open := t.open - p[n])],
               Scatter(|s|, d, p, n + 1), was, now + Told(inbound.order, t.order, p[n]))
  {
    hide Scatter, Sum, Reduce, FillsOf, Kept, Where;
    AllOpenSide(buy, s);
    InRange(s, d, deferred, k);
    ScatterAt(s, d, deferred, k, p, n);
    assert n > 0 ==> Rises(d, n - 1, n);
    ScatterStep(inbound.order, s, d, deferred, k, p, n);
    WhereReduced(buy, s, Scatter(|s|, d, p, n), d[n]);
    Associate(was, FillsOf(inbound.order, s, Scatter(|s|, d, p, n)), Told(inbound.order, s[d[n]].order, p[n]));
  }

  /** The order at `entry` gives its part after the deferred ones. */
  lemma {:induction false} DealLast(buy: bool, s: seq<Tracker>, inbound: Tracker, i: Tracker, c: seq<Tracker>,
                                    f: seq<nat>, entry: nat, q: nat, was: seq<Callback>, now: seq<Callback>)
    requires MarketSide(buy, s) && entry < |s| == |f| && NothingFrom(f, entry) && q <= s[entry].open && q <= i.open
    requires Dealt(s, inbound, i, c, f, was, now)
    ensures var w, t := Where(c, s[entry].order), s[entry];
      && w < |c| && c[w] == t && t.open > 0 && t.order.price != MARKET
      && Dealt(s, inbound, i.(open := i.open - q),
          if t.open == q then c[..w] + c[w + 1..] else c[w := t.(open := t.open - q)],
               f[entry := q], was, now + Told(inbound.order, t.order, q))
  {
    hide Sum, Reduce, FillsOf, Kept, Where;
    AllOpenSide(buy, s);
    TakeLast(s, f, entry, inbound.order, buy, q);
    Associate(was, FillsOf(inbound.order, s, f), Told(inbound.order, s[entry].order, q));
  }

  /** The order at `entry` gives a part, and leaves the side with what it has left. */
  lemma DealDropped(buy: bool, s: seq<Tracker>, inbound: Tracker, i: Tracker, c: seq<Tracker>, f: seq<nat>, entry: nat,
                    was: seq<Callback>, now: seq<Callback>)
    requires MarketSide(buy, s) && entry < |s| == |f| && NothingFrom(f, entry) && 0 < i.open < s[entry].open
    requires Within(s, inbound, f) && Reached(s, inbound, entry) && Dealt(s, inbound, i, c, f, was, now)
    ensures var w, t, q := Where(c, s[entry].order), s[entry], i.open;
      && w < |c| && c[w] == t && t.order.price != MARKET
      && Took(s, inbound, i.(open := 0), c[..w] + c[w + 1..], f[entry := q], {t.order},
              was, now + Told(inbound.order, t.order, q))
  {
    hide Sum, Reduce, FillsOf, Kept, Where, MarketSide, Within, NothingFrom, Leaving, Drops;
    var t, q := s[entry], i.open;
    var h := f[entry := q];
    DealLast(buy, s, inbound, i, c, f, entry, q, was, now);
    DropLast(buy, s, inbound, c, f, entry, q);
  }

  lemma DropLast(buy: bool, s: seq<Tracker>, inbound: Tracker, c: seq<Tracker>, f: seq<nat>, entry: nat, q: nat)
    requires MarketSide(buy, s) && entry < |s| == |f| && NothingFrom(f, entry) && q < s[entry].open
    requires Within(s, inbound, f) && Reached(s, inbound, entry) && c == Reduce(s, f)
    ensures var w, h := Where(c, s[entry].order), f[entry := q];
      && w < |c| && c[..w] + c[w + 1..] == Reduce(s, Leaving(s, h, {s[entry].order}))
      && Drops(s, h, {s[entry].order}) && Within(s, inbound, h)
  {
    hide Sum, Reduce, FillsOf, Kept, Where, MarketSide;
    var t := s[entry];
    var h := f[entry := q];
    TakeLast(s, f, entry, inbound.order, buy, t.open);
    WhereAt(buy, s, entry);
    AllOthers(buy, s, h, entry);
    assert f[entry := t.open] == h[entry := t.open];
    forall k | 0 <= k < |s| ensures PartIn(s, inbound, h, k) { assert PartIn(s, inbound, f, k); }
  }

  lemma AllOthers(buy: bool, s: seq<Tracker>, f: seq<nat>, entry: nat)
    requires MarketSide(buy, s) && entry < |s| == |f|
    ensures Leaving(s, f, {s[entry].order}) == f[entry := s[entry].open]
  {
    forall k | 0 <= k < |s| && k != entry ensures s[k].order != s[entry].order {
      assert InLine(s, if k < entry then k else entry, if k < entry then entry else k);
    }
  }

  lemma NothingScattered(s: seq<Tracker>, d: seq<nat>, deferred: seq<SimpleOrder>, k: nat)
    requires Deferred(s, d, deferred, k)
    ensures Scatter(|s|, d, NoParts(|d|), |d|) == NoParts(|s|)
  {
    var p := NoParts(|d|);
    NoSum(p);
    assert p[0..] == p;
    ScatterRest(s, d, deferred, k, p, 0);
  }

  lemma {:induction false} ScatteredBefore(s: seq<Tracker>, d: seq<nat>, deferred: seq<SimpleOrder>, k: nat,
                                           p: seq<nat>)
    requires Deferred(s, d, deferred, k) && |p| == |d|
    ensures NothingFrom(Scatter(|s|, d, p, |d|), k) && Sum(Scatter(|s|, d, p, |d|)) == Sum(p)
  {
    ScatterAt(s, d, deferred, k, p, |d|);
    ScatterSum(s, d, k, p, |d|);
    assert p[..|d|] == p;
  }

  /** The state in which the order at `entry` is tried together with the deferred ones. */
  ghost predicate Waiting(s: seq<Tracker>, d: seq<nat>, deferred: seq<SimpleOrder>, entry: nat, buy: bool) {
    MarketSide(buy, s) && entry < |s| && Deferred(s, d, deferred, entry)
  }

  lemma WaitingFacts(s: seq<Tracker>, d: seq<nat>, deferred: seq<SimpleOrder>, entry: nat, buy: bool)
    requires Waiting(s, d, deferred, entry, buy)
    ensures 0 < s[entry].open < WORD && s[entry].order.price != MARKET
    ensures |d| == |deferred| && forall j :: 0 <= j < |d| ==> d[j] < |s| && d[j] < entry
  {
    assert MayStay(buy, s[entry]);
  }

  /** A try, from what the deferred orders have given. */
  lemma TriedAs(s: seq<Tracker>, inbound: Tracker, d: seq<nat>, deferred: seq<SimpleOrder>, k: nat, f: seq<nat>)
    requires Deferred(s, d, deferred, k) && k < |s|
    requires var open := inbound.open;
      f == Scatter(|s|, d, Gives(false, EntriesAt(s, d), MaxWanted(s[k], open), MinWanted(s[k], open), open), |d|)
    ensures NothingFrom(f, k) && Sum(f) <= inbound.open
    ensures Tried(false, s, inbound, d, k)
      == if Completes(false, s[k], inbound.open, Sum(f))
        then Try(f[k := Min(inbound.open - Sum(f), s[k].open)], true) else Try(f, false)
  {
    hide Gives, Scatter, Sum, Deferred, Completes, NothingFrom, MaxWanted, MinWanted;
    InRange(s, d, deferred, k);
    var open := inbound.open;
    var g := Gives(false, EntriesAt(s, d), MaxWanted(s[k], open), MinWanted(s[k], open), open);
    ScatteredBefore(s, d, deferred, k, g);
  }

  // ---- The walk of an all-or-none order ----

  /** The variables of the walk, and that it ends where the walk from the start ends. */
  ghost predicate Along(s: seq<Tracker>, inbound: Tracker, st: Seek, pos: nat, deferred: seq<SimpleOrder>, sum: nat,
                        aons: seq<SimpleOrder>, hit: bool) {
    && OnWay(s, inbound, st) && Walk(false, s, inbound, st) == Aon(s, inbound)
    && st.k == pos && deferred == OrdersAt(s, st.d) && aons == OrdersAt(s, st.e) && sum == st.sum && hit == st.hit
  }

  lemma AlongStart(s: seq<Tracker>, inbound: Tracker)
    ensures Along(s, inbound, Start(s), 0, [], 0, [], false)
  {
    StartOnWay(s, inbound);
  }

  lemma AlongFacts(buy: bool, s: seq<Tracker>, inbound: Tracker, st: Seek, pos: nat, deferred: seq<SimpleOrder>,
                   sum: nat, aons: seq<SimpleOrder>, hit: bool)
    requires Along(s, inbound, st, pos, deferred, sum, aons, hit) && MarketSide(buy, s)
    ensures pos == st.k <= |s| && InSide(s, st) && sum == st.sum && Within(s, inbound, st.f)
    ensures pos < |s| ==> Waiting(s, st.d, deferred, pos, buy)
    ensures NothingFrom(st.f, pos)
  {
    DeferredIf(s, st.d, pos);
  }

  /** What a further try comes to at the entry. */
  lemma AgainIs(s: seq<Tracker>, inbound: Tracker, st: Seek, q: nat)
    requires InSide(s, st) && st.k < |s| && q == inbound.open - Sum(st.f) && q > 0 && !TooLarge(s[st.k], inbound)
    ensures var t, r := s[st.k], Again(s[st.k], inbound, st);
      if t.aon && t.open == inbound.open then
        r.f == st.f[st.k := q] && r.hit && r.fate == Dropped && DropOf(s, r) == {t.order}
      else r.fate == Undefined
  {
  }

  lemma AlongNext(s: seq<Tracker>, inbound: Tracker, st: Seek, pos: nat, deferred: seq<SimpleOrder>, sum: nat,
                  aons: seq<SimpleOrder>, hit: bool)
    requires Along(s, inbound, st, pos, deferred, sum, aons, hit) && !Stops(s, inbound, st)
    ensures var r := Look(false, s, inbound, st);
      if TooLarge(s[pos], inbound) then
        r.f == st.f && Along(s, inbound, r, pos + 1, deferred, sum, aons + [s[pos].order], hit)
      else if Tries(false, s[pos], inbound, sum) then
        && (if Sum(st.f) == 0 then Tried(false, s, inbound, st.d, pos) == Try(r.f, r.hit) && r.fate == st.fate
            else r == Again(s[pos], inbound, st))
        && Along(s, inbound, r, pos + 1, deferred, sum, aons, r.hit)
      else
        r.f == st.f && Along(s, inbound, r, pos + 1, deferred + [s[pos].order], Wrap(sum + s[pos].open), aons, hit)
    ensures !Tries(false, s[pos], inbound, sum) ==> Look(false, s, inbound, st).fate == st.fate
  {
    hide OnWay, Tried, Again;
    AlongRange(s, inbound, st);
    LookOnWay(false, s, inbound, st);
    AlongRange(s, inbound, Look(false, s, inbound, st));
  }

  /** The walk has come to an entry for which nothing is said. */
  lemma AlongUndefined(s: seq<Tracker>, inbound: Tracker, st: Seek, pos: nat, deferred: seq<SimpleOrder>, sum: nat,
                       aons: seq<SimpleOrder>, hit: bool)
    requires Along(s, inbound, st, pos, deferred, sum, aons, hit) && st.fate == Undefined
    ensures Aon(s, inbound).fate == Undefined
  {
  }

  lemma AlongRange(s: seq<Tracker>, inbound: Tracker, st: Seek)
    requires OnWay(s, inbound, st)
    ensures InSide(s, st) && (forall j :: 0 <= j < |st.d| ==> st.d[j] < |s|)
    ensures (forall j :: 0 <= j < |st.e| ==> st.e[j] < |s|)
  {
  }

  lemma AlongEnds(buy: bool, s: seq<Tracker>, inbound: Tracker, st: Seek, pos: nat, deferred: seq<SimpleOrder>,
                  sum: nat, aons: seq<SimpleOrder>, hit: bool)
    requires Along(s, inbound, st, pos, deferred, sum, aons, hit) && MarketSide(buy, s) && Stops(s, inbound, st)
    ensures st == Aon(s, inbound) && aons == OrdersAt(s, st.e) && hit == st.hit && Within(s, inbound, st.f)
    ensures Listed(Reduce(s, Leaving(s, st.f, DropOf(s, st))), aons)
  {
    hide Reduce, MarketSide, Listed;
    DeferredIf(s, st.e, st.k);
    PassedStay(buy, s, inbound, st);
    AonsStay(buy, s, Leaving(s, st.f, DropOf(s, st)), st.e, aons);
  }

  /** The dropped order is not one that was passed over. */
  lemma PassedStay(buy: bool, s: seq<Tracker>, inbound: Tracker, st: Seek)
    requires OnWay(s, inbound, st) && MarketSide(buy, s)
    ensures var g := Leaving(s, st.f, DropOf(s, st));
      forall j :: 0 <= j < |st.e| ==> st.e[j] < |s| && s[st.e[j]].aon && g[st.e[j]] == 0
  {
    hide Sum, Within;
    if st.fate == Dropped { AllOthers(buy, s, st.f, st.k - 1); }
  }

  // ---- Reported fills ----

  /** Parts that come to nothing leave everything as it was. */
  lemma {:induction false} Untouched(s: seq<Tracker>, inbound: Tracker, i: Tracker, c: seq<Tracker>, f: seq<nat>,
                                     buy: bool, was: seq<Callback>, now: seq<Callback>)
    requires MarketSide(buy, s) && Dealt(s, inbound, i, c, f, was, now) && Sum(f) == 0
    ensures i == inbound && c == s && now == was
  {
    forall j | 0 <= j < |f| ensures f[j] == 0 { PartOfSum(f, j); }
    AllOpenSide(buy, s);
    NoFills(inbound.order, s, f);
    NoneTaken(s, f);
  }

  /** Fills are reported exactly if something is taken. */
  lemma {:induction false} SomeFills(x: SimpleOrder, s: seq<Tracker>, f: seq<nat>)
    requires |f| == |s|
    ensures FillsOf(x, s, f) != [] <==> Sum(f) > 0
    ensures forall k :: 0 <= k < |FillsOf(x, s, f)| ==> FillsOf(x, s, f)[k].OnFill?
  {
    if s != [] { SomeFills(x, s[1..], f[1..]); }
  }

  /** Only fills have been added, and some exactly if `hit` says so; one way only unless `sure`. */
  ghost predicate Tells(was: seq<Callback>, now: seq<Callback>, hit: bool, sure: bool) {
    && |now| >= |was| && now[..|was|] == was && (forall k :: |was| <= k < |now| ==> now[k].OnFill?)
    && (hit ==> |now| > |was|) && (sure && |now| > |was| ==> hit)
  }

  lemma TellsNone(was: seq<Callback>, sure: bool)
    ensures Tells(was, was, false, sure)
  {
  }

  lemma TellsDealt(s: seq<Tracker>, inbound: Tracker, i: Tracker, c: seq<Tracker>, f: seq<nat>, was: seq<Callback>,
                   now: seq<Callback>, hit: bool, sure: bool)
    requires Dealt(s, inbound, i, c, f, was, now) && (hit ==> Sum(f) > 0) && (sure && Sum(f) > 0 ==> hit)
    ensures Tells(was, now, hit, sure)
  {
    SomeFills(inbound.order, s, f);
  }

  lemma TellsChain(a: seq<Callback>, b: seq<Callback>, c: seq<Callback>, hit: bool, more: bool, sure: bool)
    requires Tells(a, b, hit, sure) && Tells(b, c, more, sure)
    ensures Tells(a, c, hit || more, sure)
  {
    forall k | |a| <= k < |c| ensures c[k].OnFill? { assert k < |b| ==> c[..|b|][k] == b[k]; }
    assert c[..|a|] == c[..|b|][..|a|];
  }

  /** A further step tells as surely as the state before it was safe. */
  lemma TellsNext(a: seq<Callback>, b: seq<Callback>, c: seq<Callback>, hit: bool, more: bool, sure: bool, still: bool)
    requires Tells(a, b, hit, sure) && Tells(b, c, more, still) && (sure ==> still)
    ensures Tells(a, c, hit || more, sure)
  {
    TellsWeaker(b, c, more, still, sure);
    TellsChain(a, b, c, hit, more, sure);
  }

  lemma TellsWeaker(was: seq<Callback>, now: seq<Callback>, hit: bool, sure: bool, less: bool)
    requires Tells(was, now, hit, sure) && (less ==> sure)
    ensures Tells(was, now, hit, less)
  {
  }

  lemma StepSwap(a: seq<Tracker>, b: seq<Tracker>, t: Tracker, lost: set<SimpleOrder>, base: Views,
                 cbs: seq<Callback>)
    ensures InStep(a, b, t, lost, base, cbs) <==> InStep(b, a, t, lost, base, cbs)
  {
  }

  lemma Swap(a: seq<Tracker>, b: seq<Tracker>, lost: set<SimpleOrder>, base: Views, cbs: seq<Callback>)
    requires InBook(a, b, lost, base, cbs)
    ensures InBook(b, a, lost, base, cbs)
  {
  }

  lemma TookInStep(buy: bool, s: seq<Tracker>, own: seq<Tracker>, inbound: Tracker, i: Tracker, c: seq<Tracker>,
                   f: seq<nat>, drop: set<SimpleOrder>, lost: set<SimpleOrder>, base: Views,
                   was: seq<Callback>, now: seq<Callback>)
    requires MarketSide(buy, s) && MarketSide(!buy, own) && inbound.order.isBuy != buy
    requires Took(s, inbound, i, c, f, drop, was, now) && InStep(s, own, inbound, lost, base, was)
    ensures InStep(c, own, i, lost + drop, base, now)
  {
    hide MarketSide, InStep, Reduce, FillsOf, Drops, Leaving;
    forall k | 0 <= k < |f| ensures f[k] <= s[k].open { assert PartIn(s, inbound, f, k); }
    MatchInStep(buy, s, own, inbound, f, drop, lost, base, was);
  }

  lemma TookNowhere(buy: bool, s: seq<Tracker>, inbound: Tracker, i: Tracker, c: seq<Tracker>, f: seq<nat>,
                    drop: set<SimpleOrder>, was: seq<Callback>, now: seq<Callback>)
    requires MarketSide(buy, s) && inbound.order.isBuy != buy && Took(s, inbound, i, c, f, drop, was, now)
    ensures Nowhere(c, i.order) && i.order == inbound.order
  {
    OtherSide(buy, s, inbound.order);
    NotInReduced(s, Leaving(s, f, drop), inbound.order);
  }

  lemma ComeSwap(bids: seq<Tracker>, asks: seq<Tracker>, t: Tracker)
    ensures MayCome(bids, asks, t) <==> MayCome(asks, bids, t)
  {
  }

  lemma Comes(bids: seq<Tracker>, asks: seq<Tracker>, t: Tracker)
    requires MayCome(bids, asks, t)
    ensures Incoming(t, !t.order.isBuy)
  {
  }

  /** What is left of the order that has been matched. */
  lemma TookLeft(s: seq<Tracker>, inbound: Tracker, i: Tracker, c: seq<Tracker>, f: seq<nat>,
                 drop: set<SimpleOrder>, was: seq<Callback>,
                 now: seq<Callback>)
    requires Took(s, inbound, i, c, f, drop, was, now)
    ensures Sum(f) <= inbound.open && i == inbound.(open := inbound.open - Sum(f))
    ensures now == was + FillsOf(inbound.order, s, f)
  {
  }

  /** An all-or-none order that is hit has traded, and one that has traded is hit if no sum wraps. */
  lemma AonHits(s: seq<Tracker>, t: Tracker)
    requires t.aon && 0 < t.open < WORD
    ensures Hits(s, t) ==> Sum(Aon(s, t).f) > 0
    ensures Sure(s, t) ==> Lawful(s, t, Aon(s, t).f) && (Hits(s, t) <==> Sum(Aon(s, t).f) > 0)
    ensures Sure(s, t) ==> Defined(s, t) && LostOf(s, t) == {}
  {
    hide NoneWraps, Walk;
    AonIsFair(s, t);
  }

  /** After matching, what is left of the order may rest; if nothing is left it is on no side. */
  lemma AfterMatch(buy: bool, s: seq<Tracker>, own: seq<Tracker>, inbound: Tracker, i: Tracker, c: seq<Tracker>,
                   f: seq<nat>, drop: set<SimpleOrder>, lost: set<SimpleOrder>, base: Views,
                   was: seq<Callback>, now: seq<Callback>)
    requires MarketSide(buy, s) && MarketSide(!buy, own) && inbound.order.isBuy != buy
    requires Took(s, inbound, i, c, f, drop, was, now)
    requires MayCome(s, own, inbound) && MarketSide(buy, c) && InStep(s, own, inbound, lost, base, was)
    ensures InStep(c, own, i, lost + drop, base, now) && Nowhere(c, i.order)
    ensures i.order == inbound.order && i.ioc == inbound.ioc && i.open <= inbound.open && i.aon == inbound.aon
    ensures i.open == 0 ==> InBook(c, own, lost + drop, base, now)
    ensures i.open > 0 && !i.ioc ==>
      MarketSide(!buy, Emplace(!buy, own, i)) && InBook(c, Emplace(!buy, own, i), lost + drop, base, now)
  {
    TookInStep(buy, s, own, inbound, i, c, f, drop, lost, base, was, now);
    TookNowhere(buy, s, inbound, i, c, f, drop, was, now);
    hide MarketSide, InStep, InBook, Where, Emplace, Within, Reduce, FillsOf, Sum;
    if i.open == 0 {
      DoneInBook(buy, c, own, i, lost + drop, base, now);
    } else if !i.ioc {
      MayStayNow(buy, inbound, i, f);
      EmplaceSide(!buy, own, i);
      RestInBook(buy, c, own, i, lost + drop, base, now);
    }
  }

  lemma {:induction false} MayStayNow(buy: bool, inbound: Tracker, i: Tracker, f: seq<nat>)
    requires inbound.order.isBuy != buy && inbound.order.price != MARKET && 0 < inbound.open == inbound.order.qty < WORD
    requires !inbound.ioc
    requires Sum(f) <= inbound.open && i == inbound.(open := inbound.open - Sum(f)) && i.open > 0
    ensures MayStay(!buy, i)
  {
  }

  // ---- An entry whose order has been matched as if it came in ----

  lemma {:induction false} FirstListed(buy: bool, s: seq<Tracker>, aons: seq<SimpleOrder>)
    requires MarketSide(buy, s) && Listed(s, aons) && aons != []
    ensures var w := Where(s, aons[0]);
      w < |s| && s[w].order == aons[0] && s[w].aon && Incoming(s[w], !buy) && MayStay(buy, s[w])
  {
    assert MayStay(buy, s[Where(s, aons[0])]);
  }

  lemma WherePut(s: seq<Tracker>, w: nat, t: Tracker, o: SimpleOrder)
    requires w < |s| && t.order == s[w].order
    ensures Where(s[w := t], o) == Where(s, o)
  {
    if s[0].order != o {
      if w > 0 {
        assert s[w := t][1..] == s[1..][w - 1 := t];
        WherePut(s[1..], w - 1, t, o);
      } else {
        assert s[0 := t][1..] == s[1..];
      }
    }
  }

  lemma PutSide(buy: bool, s: seq<Tracker>, w: nat, t: Tracker)
    requires MarketSide(buy, s) && w < |s| && t == s[w].(open := t.open) && 0 < t.open <= s[w].open
    ensures MarketSide(buy, s[w := t])
  {
    var u := s[w := t];
    forall i | 0 <= i < |u| ensures MayStay(buy, u[i]) { assert MayStay(buy, s[i]); }
    forall i, j | 0 <= i < j < |u| ensures InLine(u, i, j) { assert InLine(s, i, j); }
  }

  /** The order is back on its side with what it has left. */
  lemma PutInBook(buy: bool, s: seq<Tracker>, m: seq<Tracker>, w: nat, t: Tracker, lost: set<SimpleOrder>,
                  base: Views, cbs: seq<Callback>)
    requires MarketSide(buy, s) && w < |s| && t.order == s[w].order && t.open > 0 && Nowhere(m, t.order)
    requires InStep(m, Without(s, w), t, lost, base, cbs)
    ensures InBook(s[w := t], m, lost, base, cbs)
  {
    hide Stands, TouchAll, MarketSide, Named, Known, OpenIn, Without, Where, Off;
    PutOff(buy, s, m, w, t, lost, base);
    KnownPut(s, w, t, base);
    forall o | o in base
      ensures Stands(o, OpenIn(s[w := t], o) + OpenIn(m, o), lost, TouchAll(o, base[o], cbs))
    {
      PutOpen(buy, s, m, w, t, o);
    }
  }

  lemma PutOff(buy: bool, s: seq<Tracker>, m: seq<Tracker>, w: nat, t: Tracker, lost: set<SimpleOrder>, base: Views)
    requires MarketSide(buy, s) && w < |s| && t.order == s[w].order
    requires t.order !in lost && Off(lost, m, Without(s, w), base)
    ensures Off(lost, s[w := t], m, base)
  {
    WithoutSide(buy, s, w);
    hide MarketSide, Without;
    forall o | o in lost ensures Nowhere(s[w := t], o) {
      WherePut(s, w, t, o);
      WithoutOpen(buy, s, w, o);
      OpenNowhere(buy, s, o);
      OpenNowhere(buy, Without(s, w), o);
    }
  }

  lemma PutOpen(buy: bool, s: seq<Tracker>, m: seq<Tracker>, w: nat, t: Tracker, o: SimpleOrder)
    requires MarketSide(buy, s) && w < |s| && t.order == s[w].order && Nowhere(m, t.order)
    ensures OpenIn(s[w := t], o) + OpenIn(m, o)
      == if o == t.order then t.open else OpenIn(m, o) + OpenIn(Without(s, w), o)
  {
    hide Without, MarketSide;
    WhereAt(buy, s, w);
    WherePut(s, w, t, o);
    WithoutOpen(buy, s, w, o);
  }

  lemma KnownPut(s: seq<Tracker>, w: nat, t: Tracker, base: Views)
    requires w < |s| && Known(Without(s, w), base) && t.order in base && t.order == s[w].order
    ensures Known(s[w := t], base)
  {
    var u := s[w := t];
    forall i | 0 <= i < |u| ensures u[i].order in base {
      if i != w { assert s[i] == Without(s, w)[if i < w then i else i - 1]; }
    }
  }

  lemma ListedPut(s: seq<Tracker>, w: nat, t: Tracker, aons: seq<SimpleOrder>)
    requires Listed(s, aons) && aons != [] && w < |s| && t.order == s[w].order && t.aon == s[w].aon
    ensures Listed(s[w := t], aons[1..])
  {
    ListedRest(s, aons);
    var rest := aons[1..];
    forall j | 0 <= j < |rest| ensures Where(s[w := t], rest[j]) < |s| && s[w := t][Where(s[w := t], rest[j])].aon {
      WherePut(s, w, t, rest[j]);
    }
    forall i, j | 0 <= i < j < |rest| ensures Distinct(rest, i, j) { assert Distinct(aons, i + 1, j + 1); }
  }

  // ---- Sides on which all-or-none orders are safe ----

  /** No all-or-none order makes more than 2^32 with an order of the other side. */
  ghost predicate Roomy(a: seq<Tracker>, b: seq<Tracker>) {
    forall x, y :: x in a && y in b && (x.aon || y.aon) ==> x.open + y.open <= WORD
  }

  /** The same for an order that comes in. */
  ghost predicate Welcome(t: Tracker, s: seq<Tracker>) {
    forall y :: y in s && (t.aon || y.aon) ==> t.open + y.open <= WORD
  }

  /** All-or-none orders are untouched, and no sum wraps when one of them is matched. */
  ghost predicate Secure(a: seq<Tracker>, b: seq<Tracker>) {
    Whole(a) && Whole(b) && Roomy(a, b)
  }

  lemma SecureSwap(a: seq<Tracker>, b: seq<Tracker>)
    ensures Secure(a, b) <==> Secure(b, a)
  {
  }

  lemma WelcomeRoom(t: Tracker, s: seq<Tracker>)
    requires Welcome(t, s) && t.aon
    ensures RoomFor(t, s)
  {
    forall i | 0 <= i < |s| ensures t.open + s[i].open <= WORD { assert s[i] in s; }
  }

  lemma WelcomeEntry(a: seq<Tracker>, b: seq<Tracker>, w: nat)
    requires Roomy(a, b) && w < |a|
    ensures Welcome(a[w], b)
  {
    assert a[w] in a;
  }

  /** The parts taken, if all-or-none orders give all or nothing, leave the side as safe as it was. */
  lemma ReducedSecure(own: seq<Tracker>, s: seq<Tracker>, inbound: Tracker, f: seq<nat>)
    requires Secure(own, s) && Taken(s, inbound, f, Sum(f))
    ensures Secure(own, Reduce(s, f))
  {
    ReduceWhole(s, inbound, f, Sum(f));
    forall x, y | x in own && y in Reduce(s, f) && (x.aon || y.aon) ensures x.open + y.open <= WORD {
      var i := LeftAt(s, f, y);
      assert s[i] in s;
    }
  }

  lemma ReducedWelcome(t: Tracker, s: seq<Tracker>, f: seq<nat>, i: Tracker)
    requires Welcome(t, s) && |f| == |s| && i.aon == t.aon && i.open <= t.open
    ensures Welcome(i, Reduce(s, f))
  {
    forall y | y in Reduce(s, f) && (i.aon || y.aon) ensures i.open + y.open <= WORD {
      var k := LeftAt(s, f, y);
      assert s[k] in s;
    }
  }

  lemma EmplacedSecure(buy: bool, own: seq<Tracker>, s: seq<Tracker>, t: Tracker)
    requires Secure(own, s) && Welcome(t, s) && (t.aon ==> t.open == t.order.qty)
    ensures Secure(Emplace(buy, own, t), s)
  {
    forall x | x in Emplace(buy, own, t) ensures x == t || x in own {}
  }

  lemma WithoutSecure(a: seq<Tracker>, b: seq<Tracker>, w: nat)
    requires Secure(a, b) && w < |a|
    ensures Secure(Without(a, w), b)
  {
    assert forall x :: x in Without(a, w) ==> x in a;
  }

  /** All-or-none orders take all or nothing and give all or nothing. */
  ghost predicate Lawful(s: seq<Tracker>, t: Tracker, f: seq<nat>) {
    Taken(s, t, f, Sum(f)) && (t.aon ==> Sum(f) == 0 || Sum(f) == t.open)
  }

  /** No sum wraps in the match of the order. */
  ghost predicate Sure(s: seq<Tracker>, t: Tracker) {
    t.aon ==> NoneWraps(s, t)
  }

  lemma WelcomeSure(t: Tracker, s: seq<Tracker>)
    requires Welcome(t, s) && 0 < t.open < WORD
    ensures Sure(s, t)
  {
    hide NoneWraps, AllOrNothing, Welcome;
    if t.aon {
      WelcomeRoom(t, s);
      AonIsFair(s, t);
    }
  }

  /** A passed-over order has been tried: nothing of it is traded in part. */
  lemma TriedSecure(buy: bool, d: seq<Tracker>, m: seq<Tracker>, w: nat, i: Tracker, c: seq<Tracker>, f: seq<nat>,
                    was: seq<Callback>, now: seq<Callback>)
    requires MarketSide(!buy, m) && w < |d| && d[w].aon && Secure(d, m)
    requires Took(m, d[w], i, c, f, {}, was, now) && Lawful(m, d[w], f)
    ensures Secure(Back(d, w, i), c)
  {
    hide Secure, MarketSide, Reduce, FillsOf, Within, Taken, Without;
    TookPlain(m, d[w], i, c, f, was, now);
    if i.open == 0 {
      ReducedSecure(d, m, d[w], f);
      WithoutSecure(d, c, w);
    } else {
      Untouched(m, d[w], i, c, f, !buy, was, now);
      assert d[w := d[w]] == d;
    }
  }

  lemma EntrySure(buy: bool, d: seq<Tracker>, m: seq<Tracker>, w: nat)
    requires MarketSide(buy, d) && w < |d| && Secure(d, m)
    ensures Sure(m, d[w])
  {
    hide InLine, Sure, Welcome;
    assert MayStay(buy, d[w]);
    WelcomeEntry(d, m, w);
    WelcomeSure(d[w], m);
  }

  /** All-or-none orders on both sides are safe, and so is the order that comes in. */
  ghost predicate Safe(own: seq<Tracker>, s: seq<Tracker>, t: Tracker) {
    Secure(own, s) && Welcome(t, s)
  }

  /** The same with bids and asks told apart. */
  ghost predicate SafeIn(bids: seq<Tracker>, asks: seq<Tracker>, t: Tracker) {
    if t.order.isBuy then Safe(bids, asks, t) else Safe(asks, bids, t)
  }

  lemma SafeSecure(bids: seq<Tracker>, asks: seq<Tracker>, t: Tracker)
    requires SafeIn(bids, asks, t)
    ensures Secure(bids, asks)
  {
    SecureSwap(bids, asks);
  }

  /** Quantities up to 2^31 are safe. */
  lemma HalfWordSafe(bids: seq<Tracker>, asks: seq<Tracker>, t: Tracker)
    requires Whole(bids) && Whole(asks) && 2 * t.open <= WORD && forall x :: x in bids + asks ==> 2 * x.open <= WORD
    ensures SafeIn(bids, asks, t)
  {
    forall x | x in bids || x in asks ensures 2 * x.open <= WORD { assert x in bids + asks; }
  }

  /** After a safe order has been matched the sides are safe, with what is left of it or without. */
  lemma MatchedSafe(own: seq<Tracker>, s: seq<Tracker>, t: Tracker, i: Tracker, c: seq<Tracker>, f: seq<nat>,
                    was: seq<Callback>, now: seq<Callback>)
    requires Safe(own, s, t) && Took(s, t, i, c, f, {}, was, now) && Lawful(s, t, f) && t.open == t.order.qty
    ensures Secure(c, own)
    ensures i.open > 0 ==> Secure(c, Emplace(t.order.isBuy, own, i))
  {
    hide Secure, Welcome, Reduce, FillsOf, Within, Taken, Emplace;
    TookPlain(s, t, i, c, f, was, now);
    ReducedSecure(own, s, t, f);
    SecureSwap(own, c);
    if i.open > 0 {
      ReducedWelcome(t, s, f, i);
      EmplacedSecure(t.order.isBuy, own, c, i);
      SecureSwap(Emplace(t.order.isBuy, own, i), c);
    }
  }

  // ---- Looking an order up, and its callbacks ----

  lemma {:induction false} HeldOnce(buy: bool, s: seq<Tracker>, other: seq<Tracker>, o: SimpleOrder)
    requires MarketSide(buy, s) && MarketSide(!buy, other) && Where(s, o) < |s|
    ensures s[Where(s, o)].open > 0 && OpenIn(other, o) == 0
  {
    assert MayStay(buy, s[Where(s, o)]);
    OtherSide(!buy, other, o);
  }

  lemma {:induction false} FoundHere(s: seq<Tracker>, o: SimpleOrder)
    requires Where(s, o) < |s|
    ensures s[Where(s, o)].order == o
  {
  }

  /** First entry at a price: what the multimap's `find` yields. */
  function FirstAt(s: seq<Tracker>, price: nat): (p: nat)
    ensures p <= |s|
    ensures p < |s| ==> s[p].order.price == price
    ensures forall i :: 0 <= i < p ==> s[i].order.price != price
  {
    if s == [] || s[0].order.price == price then 0 else 1 + FirstAt(s[1..], price)
  }

  lemma {:induction false} FindSplits(s: seq<Tracker>, o: SimpleOrder)
    ensures FirstAt(s, o.price) <= Where(s, o)
  {
  }

  /** Going on from an entry that is not the order's, the order is still ahead or not there. */
  lemma {:induction false} StillAhead(s: seq<Tracker>, o: SimpleOrder, pos: nat)
    requires MarketSide(o.isBuy, s) && pos < |s| && pos <= Where(s, o)
    ensures s[pos].order == o ==> Where(s, o) == pos
    ensures s[pos].order != o ==> pos + 1 <= Where(s, o)
    ensures Before(o.isBuy, o.price, s[pos].order.price) ==> Where(s, o) == |s|
  {
    var w := Where(s, o);
    if w < |s| {
      assert MayStay(o.isBuy, s[pos]) && MayStay(o.isBuy, s[w]);
      assert pos < w ==> InLine(s, pos, w);
    }
  }

  lemma AllNamed(bids: seq<Tracker>, asks: seq<Tracker>, lost: set<SimpleOrder>, base: Views, cbs: seq<Callback>)
    requires InBook(bids, asks, lost, base, cbs)
    ensures Named(cbs, base)
  {
  }

  lemma Stranger(bids: seq<Tracker>, asks: seq<Tracker>, lost: set<SimpleOrder>, base: Views, o: SimpleOrder)
    requires InBook(bids, asks, lost, base, []) && o !in base
    ensures Nowhere(bids, o) && Nowhere(asks, o)
  {
    NotKnown(bids, base, o);
    NotKnown(asks, base, o);
  }

  lemma StartPerforming(base: Views, cbs: seq<Callback>)
    ensures cbs[..0] == [] && HeardAll([]) == []
    ensures forall o :: o in base ==> TouchAll(o, base[o], []) == base[o]
  {
  }

  lemma HeardOne(cb: Callback)
    ensures HeardAll([cb]) == Heard(cb)
  {
    assert [cb][..0] == [];
  }

  ghost predicate HasFill(cbs: seq<Callback>) {
    exists k :: 0 <= k < |cbs| && cbs[k].OnFill?
  }

  lemma FillOrNot(cbs: seq<Callback>, cb: Callback)
    requires !cb.OnFill?
    ensures HasFill(cbs + [cb]) <==> HasFill(cbs)
  {
    if HasFill(cbs) {
      var k :| 0 <= k < |cbs| && cbs[k].OnFill?;
      assert (cbs + [cb])[k].OnFill?;
    }
  }

  lemma NoFill(cb: Callback)
    requires !cb.OnFill?
    ensures !HasFill([cb])
  {
  }

  lemma TellsFill(o: SimpleOrder, now: seq<Callback>, hit: bool, sure: bool)
    requires Tells([OnAccept(o)], now, hit, sure)
    ensures (hit ==> HasFill(now)) && (sure && HasFill(now) ==> hit)
  {
    assert now[..1][0] == now[0];
    assert hit ==> now[1].OnFill?;
  }

  /** The listener has been told of a fill. */
  ghost predicate FillTold(told: seq<Event>) {
    exists k :: 0 <= k < |told| && told[k].Filled?
  }

  /** The listener is told of a fill exactly if a fill is reported. */
  lemma {:induction false} FillHeard(cbs: seq<Callback>)
    ensures FillTold(HeardAll(cbs)) <==> HasFill(cbs)
  {
    if cbs != [] {
      var n := |cbs| - 1;
      FillHeard(cbs[..n]);
      var a, b := HeardAll(cbs[..n]), Heard(cbs[n]);
      assert HeardAll(cbs) == a + b;
      if k :| 0 <= k < |cbs| && cbs[k].OnFill? {
        if k < n {
          assert cbs[..n][k].OnFill?;
          var j :| 0 <= j < |a| && a[j].Filled?;
          assert (a + b)[j].Filled?;
        } else {
          assert (a + b)[|a|].Filled?;
        }
      }
      if j :| 0 <= j < |a + b| && (a + b)[j].Filled? {
        if j < |a| {
          assert a[j].Filled?;
          var k :| 0 <= k < n && cbs[..n][k].OnFill?;
          assert cbs[k].OnFill?;
        } else {
          assert b[j - |a|].Filled? && cbs[n].OnFill?;
        }
      }
    }
  }

  /** What the listener hears of a new order: the answer to it, the fills, and what is cancelled of it. */
  lemma OutcomeHeard(bids: seq<Tracker>, asks: seq<Tracker>, t: Tracker)
    ensures t.order.qty == 0 ==> HeardAll(Outcomes(bids, asks, t).cbs) == [Rejected(t.order.id)]
    ensures t.order.qty > 0 ==> var a := Adds(bids, asks, t);
      HeardAll(Outcomes(bids, asks, t).cbs) == [Accepted(t.order.id)] + HeardAll(a.fills)
        + if t.ioc && a.inbound.open > 0 then [Cancelled(t.order.id)] else []
  {
    hide Adds, HeardAll, Heard;
    var o, a := t.order, Adds(bids, asks, t);
    HeardAnswers(o);
    if o.qty > 0 {
      var tail := if t.ioc && a.inbound.open > 0 then [OnCancel(o)] else [];
      HeardConcat([OnAccept(o)], a.fills);
      HeardConcat([OnAccept(o)] + a.fills, tail);
      HeardConcat([OnAccept(o)] + a.fills + tail, [OnBookUpdate]);
    }
  }

  lemma HeardAnswers(o: SimpleOrder)
    ensures HeardAll([OnAccept(o)]) == [Accepted(o.id)] && HeardAll([OnReject(o)]) == [Rejected(o.id)]
    ensures HeardAll([OnCancel(o)]) == [Cancelled(o.id)] && HeardAll([OnBookUpdate]) == [] && HeardAll([]) == []
  {
    HeardOne(OnAccept(o));
    HeardOne(OnReject(o));
    HeardOne(OnCancel(o));
    HeardOne(OnBookUpdate);
  }

  /** Each part is heard as a fill of the two orders, with the 32-bit product as its cost. */
  lemma {:induction false} FillsHeard(x: SimpleOrder, s: seq<Tracker>, f: seq<nat>, k: nat)
    requires |f| == |s| && k < |s| && f[k] > 0
    ensures Filled(x.id, s[k].order.id, f[k], (f[k] * s[k].order.price) % 0x1_0000_0000) in HeardAll(FillsOf(x, s, f))
  {
    hide HeardAll;
    var rest := FillsOf(x, s[1..], f[1..]);
    if f[0] > 0 {
      var cb := OnFill(x, s[0].order, f[0], s[0].order.price);
      HeardOne(cb);
      HeardConcat([cb], rest);
    }
    if k > 0 { FillsHeard(x, s[1..], f[1..], k - 1); }
  }

  lemma CancelHeard(o: SimpleOrder, found: bool)
    ensures HeardAll(if found then [OnCancel(o)] + [OnBookUpdate] else [] + [OnCancelReject(o)])
      == [if found then Cancelled(o.id) else CancelRejected(o.id)]
  {
    HeardTwo([], OnCancelReject(o));
    HeardTwo([OnCancel(o)], OnBookUpdate);
  }

  /** A resting order has left its side. */
  lemma LeaveSide(buy: bool, s: seq<Tracker>, other: seq<Tracker>, w: nat, o: SimpleOrder,
                  lost: set<SimpleOrder>, base: Views)
    requires MarketSide(buy, s) && MarketSide(!buy, other) && InBook(s, other, lost, base, []) && w == Where(s, o) < |s|
    ensures MarketSide(buy, Without(s, w)) && InBook(Without(s, w), other, lost, base, [OnCancel(o)])
    ensures Secure(s, other) ==> Secure(Without(s, w), other)
  {
    hide MarketSide, InBook, Secure, Without;
    FoundHere(s, o);
    CancelInBook(buy, s, other, w, lost, base);
    WithoutSide(buy, s, w);
    if Secure(s, other) { WithoutSecure(s, other, w); }
  }

  lemma {:induction false} HeardTwo(cbs: seq<Callback>, cb: Callback)
    ensures HeardAll(cbs + [cb]) == HeardAll(cbs) + Heard(cb) && HeardAll([]) == []
    ensures |cbs| == 1 ==> HeardAll(cbs) == Heard(cbs[0])
  {
    assert (cbs + [cb])[..|cbs|] == cbs;
    if |cbs| == 1 { assert cbs[..0] == []; }
  }
}
