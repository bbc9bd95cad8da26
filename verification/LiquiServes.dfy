/**
  * When Liquibook's orders trade: an incoming order trades if what rests within its limit suffices
  * for it, and no all-or-none order stays passed over that an order come to rest would fill.
  */
module LiquiServes {
  import opened Orders
  import opened Matching
  import opened LiquiOrders
  import opened LiquiMatching
  import opened LiquiAons
  import opened LiquiSync
  import opened LiquiSteps

  /** What the orders of a side have open within a limit of the other side. */
  ghost function OpenFor(s: seq<Tracker>, buys: bool, limit: nat): nat {
    if s == [] then 0
    else
      var px := s[0].order.price;
      (if (if buys then px <= limit else px >= limit) then s[0].open else 0) + OpenFor(s[1..], buys, limit)
  }

  /** Sorted sides: from the first order that the limit does not reach on there is none. */
  lemma {:induction false} NoneFor(buy: bool, s: seq<Tracker>, t: Tracker)
    requires MarketSide(buy, s) && t.order.isBuy != buy && t.order.price != MARKET
    requires s == [] || !Matches(buy, s[0].order.price, t.order.price)
    ensures OpenFor(s, t.order.isBuy, t.order.price) == 0
    decreases |s|
  {
    if s != [] {
      assert MayStay(buy, s[0]);
      if |s| > 1 { assert InLine(s, 0, 1) && MayStay(buy, s[1]); }
      SideRest(buy, s, 1);
      NoneFor(buy, s[1..], t);
    }
  }

  lemma FirstFor(buy: bool, s: seq<Tracker>, t: Tracker)
    requires MarketSide(buy, s) && t.order.isBuy != buy && t.order.price != MARKET && s != []
    requires Matches(buy, s[0].order.price, t.order.price)
    ensures OpenFor(s, t.order.isBuy, t.order.price) == s[0].open + OpenFor(s[1..], t.order.isBuy, t.order.price)
    ensures s[0].order.isBuy == buy && 0 < s[0].open < WORD
  {
    assert MayStay(buy, s[0]);
  }

  // ---- Ordinary orders on the side: an ordinary incoming order takes what there is ----

  lemma {:induction false} RegularTakes(buy: bool, s: seq<Tracker>, t: Tracker)
    requires MarketSide(buy, s) && NoAons(s) && t.order.isBuy != buy && t.order.price != MARKET
    ensures var there := OpenFor(s, t.order.isBuy, t.order.price);
      RegularPass(s, t).inbound.open == if there >= t.open then 0 else t.open - there
    decreases |s|
  {
    hide MarketSide;
    if s == [] || !Matches(s[0].order.isBuy, s[0].order.price, t.order.price) {
      if s != [] { SideBuys(buy, s); }
      NoneFor(buy, s, t);
    } else if t.open > 0 {
      SideBuys(buy, s);
      FirstFor(buy, s, t);
      SideRest(buy, s, 1);
      RegularTakes(buy, s[1..], t.(open := t.open - Min(t.open, s[0].open)));
    }
  }

  lemma SideBuys(buy: bool, s: seq<Tracker>)
    requires MarketSide(buy, s)
    ensures forall i :: 0 <= i < |s| ==> s[i].order.isBuy == buy && 0 < s[i].open < WORD && s[i].order.price != MARKET
  {
    forall i | 0 <= i < |s| ensures s[i].order.isBuy == buy && 0 < s[i].open < WORD && s[i].order.price != MARKET {
      assert MayStay(buy, s[i]);
    }
  }

  // ---- An all-or-none incoming order takes all it has open, if that is there ----

  lemma {:induction false} ProposeEach(ts: seq<Tracker>, max: nat)
    requires SumOpen(ts) <= max
    ensures Sum(Propose(ts, max)) == SumOpen(ts)
    decreases |ts|
  {
    if ts != [] {
      ProposeCons(ts, max);
      ProposeEach(ts[1..], max - ts[0].open);
    }
  }

  ghost function FirstOnes(k: nat): (d: seq<nat>)
    ensures |d| == k && forall j :: 0 <= j < k ==> d[j] == j
  {
    seq(k, j => j)
  }

  lemma UpToRises(k: nat)
    ensures Rising(FirstOnes(k), k) && FirstOnes(k) + [k] == FirstOnes(k + 1)
  {
    forall i, j | 0 <= i < j < k ensures Rises(FirstOnes(k), i, j) {}
  }

  /** The walk with the first `k` orders deferred. */
  ghost function DeferredTo(s: seq<Tracker>, k: nat): (st: Seek)
    requires k <= |s|
    ensures InSide(s, st)
  {
    Seek(k, FirstOnes(k), SumOpen(s[..k]), [], NoParts(|s|), false, Normal)
  }

  lemma EntriesUpTo(s: seq<Tracker>, k: nat)
    requires k <= |s|
    ensures EntriesAt(s, FirstOnes(k)) == s[..k]
  {
  }

  /** Together with the orders deferred the entry suffices: it fills the order. */
  lemma SufficesThen(s: seq<Tracker>, t: Tracker, k: nat)
    requires k < |s| && !s[k].aon && Reached(s, t, k) && (forall i :: 0 <= i < k ==> Reached(s, t, i))
    requires SumOpen(s[..k]) < t.open <= SumOpen(s[..k]) + s[k].open
    ensures Tried(true, s, t, FirstOnes(k), k).hit
  {
    hide Gives, Propose, Scatter, Sum, Offer, Offered, Give;
    var ts, open := EntriesAt(s, FirstOnes(k)), t.open;
    UpToRises(k);
    EntriesUpTo(s, k);
    ProposeEach(ts, open);
    WideGives(ts, open, MinWanted(s[k], open), open);
    var g := Gives(true, ts, open, MinWanted(s[k], open), open);
    DeferredIf(s, FirstOnes(k), k);
    ScatterSum(s, FirstOnes(k), k, g, k);
  }

  lemma {:induction false} WalkTakes(buy: bool, s: seq<Tracker>, t: Tracker, k: nat)
    requires MarketSide(buy, s) && NoAons(s) && t.order.isBuy != buy && t.order.price != MARKET && k <= |s|
    requires t.aon && SumOpen(s[..k]) < t.open && (forall i :: 0 <= i < k ==> Reached(s, t, i))
    ensures var there := SumOpen(s[..k]) + OpenFor(s[k..], t.order.isBuy, t.order.price);
      Walk(true, s, t, DeferredTo(s, k)).hit <==> there >= t.open
    decreases |s| - k
  {
    hide MarketSide, OpenFor, Tried, Sum, SumOpen;
    NoSum(NoParts(|s|));
    SideBuys(buy, s);
    SideRest(buy, s, k);
    if k == |s| || !Matches(s[k].order.isBuy, s[k].order.price, t.order.price) {
      NoneFor(buy, s[k..], t);
    } else {
      assert Reached(s, t, k);
      FirstFor(buy, s[k..], t);
      assert s[k..][1..] == s[k + 1..] && s[..k + 1] == s[..k] + [s[k]];
      SumOpenAppend(s[..k], s[k]);
      if t.open <= SumOpen(s[..k]) + s[k].open {
        SufficesThen(s, t, k);
        HitEnds(s, t, k);
      } else {
        UpToRises(k);
        WalkTakes(buy, s, t, k + 1);
      }
    }
  }

  lemma HitEnds(s: seq<Tracker>, t: Tracker, k: nat)
    requires k < |s| && !s[k].aon && (forall i :: 0 <= i <= k ==> Reached(s, t, i))
    requires SumOpen(s[..k]) < t.open <= SumOpen(s[..k]) + s[k].open && Tried(true, s, t, FirstOnes(k), k).hit
    ensures Walk(true, s, t, DeferredTo(s, k)).hit
  {
    hide Tried, Sum, SumOpen;
    NoSum(NoParts(|s|));
    UpToRises(k);
    TriedWithin(true, s, t, FirstOnes(k), k);
    var st := DeferredTo(s, k);
    assert Reached(s, t, k);
    var r := Look(true, s, t, st);
    assert Stops(s, t, r);
  }

  /** Where no sum wraps an all-or-none order trades exactly if what rests within its limit suffices. */
  lemma AonTakes(buy: bool, s: seq<Tracker>, t: Tracker)
    requires MarketSide(buy, s) && NoAons(s) && Incoming(t, buy) && t.aon && NoneWraps(s, t)
    ensures Hits(s, t) <==> OpenFor(s, t.order.isBuy, t.order.price) >= t.open
    ensures MatchOf(s, t).inbound.open == if OpenFor(s, t.order.isBuy, t.order.price) >= t.open then 0 else t.open
  {
    hide Walk, OpenFor, MarketSide, Reduce, Clear, OnWay, FillsOf;
    StartOnWay(s, t);
    StartExact(s, t);
    ClearIsWide(s, t, Start(s));
    assert s[..0] == [] && s[0..] == s && FirstOnes(0) == [];
    WalkTakes(buy, s, t, 0);
    AonIsFair(s, t);
  }

  // ---- What matching leaves ----

  /** Quantities with which no sum wraps. */
  ghost predicate Small(s: seq<Tracker>) {
    forall i :: 0 <= i < |s| ==> 2 * s[i].open <= WORD
  }

  lemma SmallRoom(s: seq<Tracker>, t: Tracker)
    requires Small(s) && 2 * t.open <= WORD
    ensures RoomFor(t, s)
  {
  }

  /** What is left of a side is no more than there was, for any limit. */
  lemma {:induction false} ReducedFor(s: seq<Tracker>, f: seq<nat>, buys: bool, limit: nat)
    requires |f| == |s|
    ensures OpenFor(Reduce(s, f), buys, limit) <= OpenFor(s, buys, limit)
  {
    if s != [] { ReducedFor(s[1..], f[1..], buys, limit); }
  }

  lemma {:induction false} ReducedSmall(s: seq<Tracker>, f: seq<nat>)
    requires |f| == |s|
    ensures Small(s) ==> Small(Reduce(s, f))
    ensures NoAons(s) ==> NoAons(Reduce(s, f))
  {
    if s != [] {
      assert Small(s) ==> Small(s[1..]);
      assert NoAons(s) ==> NoAons(s[1..]);
      ReducedSmall(s[1..], f[1..]);
    }
  }

  /** An all-or-none order tried against ordinary orders: filled, or refused for want of quantity. */
  lemma Tries32(buy: bool, m: seq<Tracker>, x: Tracker)
    requires MarketSide(buy, m) && NoAons(m) && Small(m) && Incoming(x, buy) && x.aon && 2 * x.open <= WORD
    ensures Defined(m, x)
    ensures var p := MatchOf(m, x);
      && MarketSide(buy, p.current) && NoAons(p.current) && Small(p.current)
      && (p.inbound.open == 0 || (p.inbound == x && p.current == m))
      && (p.inbound.open > 0 ==> OpenFor(m, x.order.isBuy, x.order.price) < x.open)
  {
    hide Walk, OpenFor, MarketSide, Reduce, Clear, OnWay, FillsOf, NoAons, Small, Sum, NoneWraps, RoomFor;
    SmallRoom(m, x);
    AonIsFair(m, x);
    AonTakes(buy, m, x);
    var f := Aon(m, x).f;
    FairSides(m, x, f);
    ReducedSmall(m, f);
    ReduceSide(buy, m, f);
    AllOpenSide(buy, m);
    if Sum(f) == 0 { NothingLeaves(m, f); }
  }

  lemma FairSides(m: seq<Tracker>, x: Tracker, f: seq<nat>)
    requires f == Aon(m, x).f && Aon(m, x).fate == Normal && AllOrNothing(m, x, f, Aon(m, x).hit)
    ensures |f| == |m| && (Sum(f) == 0 || Sum(f) == x.open) && LostOf(m, x) == {} && Leaving(m, f, LostOf(m, x)) == f
  {
    hide Walk, OnWay, Sum;
  }

  lemma NothingLeaves(m: seq<Tracker>, f: seq<nat>)
    requires |f| == |m| && Sum(f) == 0 && forall i :: 0 <= i < |m| ==> m[i].open > 0
    ensures Reduce(m, f) == m
  {
    forall j | 0 <= j < |f| ensures f[j] == 0 { PartOfSum(f, j); }
    NoneTaken(m, f);
  }

  // ---- Passed-over orders ----

  lemma UniqueOrder(buy: bool, d: seq<Tracker>, w: nat, x: Tracker)
    requires MarketSide(buy, d) && w < |d| && x in d && x.order == d[w].order
    ensures x == d[w]
  {
    var i :| 0 <= i < |d| && d[i] == x;
    assert i != w ==> InLine(d, if i < w then i else w, if i < w then w else i);
  }

  lemma NoLonger(buy: bool, d: seq<Tracker>, w: nat)
    requires MarketSide(buy, d) && w < |d|
    ensures forall x :: x in Without(d, w) ==> x in d && x.order != d[w].order
  {
    forall x | x in Without(d, w) ensures x in d && x.order != d[w].order {
      var i :| 0 <= i < |Without(d, w)| && Without(d, w)[i] == x;
      var j := if i < w then i else i + 1;
      assert d[j] == x;
      assert InLine(d, if j < w then j else w, if j < w then w else j);
    }
  }

  /**
    * Passed-over orders are tried against ordinary orders: whoever of them is left would find too
    * little within its limit. An order that is not among them stays as it is.
    */
  lemma {:induction false} RetryServes(buy: bool, d: seq<Tracker>, m: seq<Tracker>, aons: seq<SimpleOrder>, x: Tracker)
    requires MarketSide(buy, d) && MarketSide(!buy, m) && NoAons(m) && Small(m) && Small(d) && Listed(d, aons)
    ensures var r := Retry(d, m, aons);
      && r.defined && OpenFor(r.m, x.order.isBuy, x.order.price) <= OpenFor(m, x.order.isBuy, x.order.price)
      && (x in r.d && x.order in aons ==> OpenFor(r.m, x.order.isBuy, x.order.price) < x.open)
      && (x in r.d && x.order !in aons ==> x in d)
    decreases |aons|
  {
    hide MarketSide, MatchOf, Defined, Hits, LostOf, OpenFor, NoAons, Small, Listed, Without, Where;
    if aons != [] {
      FirstListed(buy, d, aons);
      var w := Where(d, aons[0]);
      SmallAt(d, w);
      Tries32(!buy, m, d[w]);
      RetryNext(d, m, aons);
      var p := MatchOf(m, d[w]);
      var rest := Retry(Back(d, w, p.inbound), p.current, aons[1..]);
      LessLeft(!buy, m, d[w], x.order.isBuy, x.order.price);
      ListedTail(d, aons);
      if p.inbound.open == 0 {
        NoLonger(buy, d, w);
        WithoutSide(buy, d, w);
        ListedWithout(buy, d, w, aons, aons[1..]);
        SmallWithout(d, w);
        RetryServes(buy, Without(d, w), p.current, aons[1..], x);
      } else {
        assert d[w := d[w]] == d;
        RetryServes(buy, d, m, aons[1..], x);
        if x in d && x.order == d[w].order { UniqueOrder(buy, d, w, x); }
      }
    }
  }

  lemma SmallAt(d: seq<Tracker>, w: nat)
    requires Small(d) && w < |d|
    ensures 2 * d[w].open <= WORD
  {
  }

  lemma SmallWithout(d: seq<Tracker>, w: nat)
    requires Small(d) && w < |d|
    ensures Small(Without(d, w))
  {
  }

  lemma LessLeft(buy: bool, m: seq<Tracker>, x: Tracker, buys: bool, limit: nat)
    requires MarketSide(buy, m) && NoAons(m) && Small(m) && Incoming(x, buy) && x.aon && 2 * x.open <= WORD
    ensures OpenFor(MatchOf(m, x).current, buys, limit) <= OpenFor(m, buys, limit)
  {
    hide Walk, OpenFor, MarketSide, Reduce, Clear, OnWay, FillsOf, NoAons, Small, Sum, NoneWraps, RoomFor;
    SmallRoom(m, x);
    AonIsFair(m, x);
    FairSides(m, x, Aon(m, x).f);
    ReducedFor(m, Aon(m, x).f, buys, limit);
  }

  lemma ListedTail(d: seq<Tracker>, aons: seq<SimpleOrder>)
    requires Listed(d, aons) && aons != []
    ensures Listed(d, aons[1..]) && aons[0] !in aons[1..] && forall o :: o in aons ==> o == aons[0] || o in aons[1..]
  {
    var rest := aons[1..];
    forall i, j | 0 <= i < j < |rest| ensures Distinct(rest, i, j) { assert Distinct(aons, i + 1, j + 1); }
    forall j | 0 <= j < |rest| ensures rest[j] != aons[0] { assert Distinct(aons, 0, j + 1); }
  }

  /** As long as something of an ordinary order is left, all all-or-none orders it reaches are passed over. */
  lemma {:induction false} PassesAll(buy: bool, s: seq<Tracker>, t: Tracker, x: Tracker)
    requires MarketSide(buy, s) && RegularPass(s, t).inbound.open > 0 && x in RegularPass(s, t).current && x.aon
    requires t.order.isBuy != buy && t.order.price != MARKET && Matches(buy, x.order.price, t.order.price)
    ensures x.order in RegularPass(s, t).deferred
    decreases |s|
  {
    FirstReached(buy, s, t, x);
    if s != [] && t.open > 0 && Matches(s[0].order.isBuy, s[0].order.price, t.order.price) {
      var u := After(s[0], t);
      SideRest(buy, s, 1);
      if x in RegularPass(s[1..], u).current { PassesAll(buy, s[1..], u, x); } else { PassGone(s[1..], u); }
    }
  }

  lemma FirstReached(buy: bool, s: seq<Tracker>, t: Tracker, x: Tracker)
    requires MarketSide(buy, s) && t.order.price != MARKET
    ensures x in s && Matches(buy, x.order.price, t.order.price) ==>
      s != [] && Matches(s[0].order.isBuy, s[0].order.price, t.order.price)
  {
    if i :| 0 <= i < |s| && s[i] == x {
      assert MayStay(buy, s[0]) && MayStay(buy, s[i]) && (i > 0 ==> InLine(s, 0, i));
    }
  }

  lemma PassGone(s: seq<Tracker>, t: Tracker)
    ensures t.open == 0 ==> RegularPass(s, t).inbound.open == 0
  {
  }

  lemma EmplacedPlain(buy: bool, s: seq<Tracker>, t: Tracker)
    requires NoAons(s) && Small(s) && !t.aon && 2 * t.open <= WORD
    ensures NoAons(Emplace(buy, s, t)) && Small(Emplace(buy, s, t))
  {
  }

  /**
    * An ordinary order has come to rest among ordinary orders: an all-or-none order that it reaches
    * and that is left would find too little within its limit even now.
    */
  lemma JoinsServes(buy: bool, own: seq<Tracker>, s: seq<Tracker>, t: Tracker, x: Tracker)
    requires MarketSide(buy, s) && MarketSide(!buy, own) && NoAons(own) && Small(own) && Small(s)
    requires MayStay(!buy, t) && !t.aon && 2 * t.open <= WORD && Nowhere(own, t.order)
    requires RegularPass(s, t).inbound.open > 0
    ensures Joins(own, s, t).defined
    ensures var r, at, limit := Joins(own, s, t), x.order.price, t.order.price;
      x in r.d && x.aon && (t.order.isBuy ==> at <= limit) && (!t.order.isBuy ==> at >= limit) ==>
        OpenFor(r.m, x.order.isBuy, at) < x.open
  {
    hide MarketSide, RegularPass, Reduce, FillsOf, Sum, Emplace, Retry, Listed, OpenFor, Small, NoAons;
    var p := RegularPass(s, t);
    var f := RegularIsTaken(buy, s, t);
    ReduceSide(buy, s, f);
    ReducedSmall(s, f);
    PassedOver(buy, s, t);
    EmplaceSide(!buy, own, p.inbound);
    EmplacedPlain(!buy, own, p.inbound);
    RetryServes(buy, p.current, Emplace(!buy, own, p.inbound), p.deferred, x);
    if x in p.current && x.aon {
      SideBuys(buy, p.current);
      if Matches(buy, x.order.price, t.order.price) { PassesAll(buy, s, t, x); }
    }
  }
}
