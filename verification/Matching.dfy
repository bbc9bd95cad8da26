/**
  * Matching one incoming order against the opposite side, as `matching_book` does it, and what
  * that amounts to: how much each resting order gives up, in which order, and to what limit.
  */
module Matching {
  import opened Orders
  import opened Queues

  /** What the listener is told. */
  datatype Event =
    | Accepted(id: nat)
    | Rejected(id: nat)
    | Filled(taker: nat, maker: nat, qty: nat, cost: nat)
    | Cancelled(id: nat)
    | CancelRejected(id: nat)
    | Replaced(id: nat, delta: int, price: nat)
    | ReplaceRejected(id: nat)

  /** Opposite side, incoming order and market price after matching, and the fills. */
  datatype Matched = Matched(opp: seq<Entry>, taker: Order, market: nat, log: seq<Event>)

  predicate Crosses(maker: Order, taker: Order) {
    taker.price == MARKET || if taker.isBuy then maker.price <= taker.price else maker.price >= taker.price
  }

  function Min(a: nat, b: nat): nat {
    if a <= b then a else b
  }

  /** A resting order that takes all or nothing of more than is left is passed over. */
  predicate Skips(maker: Order, taker: Order) {
    maker.aon && maker.Open() > taker.Open()
  }

  /** The resting order after a fill, gone if nothing of it is left. */
  function Left(e: Entry, q: nat): seq<Entry> {
    var m := e.order.Fill(q, Cost(q, e.order.price));
    if m.Open() == 0 then [] else [e.(order := m)]
  }

  /** Best first, trades with every resting order the limit reaches until nothing is open. */
  function MatchRegular(opp: seq<Entry>, taker: Order, market: nat): Matched {
    if opp == [] || taker.Open() == 0 || !Crosses(opp[0].order, taker) then
      Matched(opp, taker, market, [])
    else if Skips(opp[0].order, taker) then
      var m := MatchRegular(opp[1..], taker, market);
      m.(opp := [opp[0]] + m.opp)
    else
      var maker := opp[0].order;
      var q := Min(taker.Open(), maker.Open());
      var c := Cost(q, maker.price);
      var m := MatchRegular(opp[1..], taker.Fill(q, c), maker.price);
      m.(opp := Left(opp[0], q) + m.opp, log := [Filled(taker.id, maker.id, q, c)] + m.log)
  }

  // ---- All-or-none incoming orders ----

  datatype Pick = Pick(id: nat, qty: nat)

  /** Plans the fills of an all-or-none order that still needs `need`. */
  function Plan(opp: seq<Entry>, taker: Order, need: nat): seq<Pick> {
    if opp == [] || need == 0 || !Crosses(opp[0].order, taker) then []
    else
      var maker := opp[0].order;
      if maker.aon && maker.Open() > need then Plan(opp[1..], taker, need)
      else
        var q := Min(maker.Open(), need);
        [Pick(maker.id, q)] + Plan(opp[1..], taker, need - q)
  }

  function Planned(plan: seq<Pick>): nat {
    if plan == [] then 0 else plan[0].qty + Planned(plan[1..])
  }

  /** Executes a plan, looking every resting order up by its id. */
  function Commit(opp: seq<Entry>, taker: Order, market: nat, plan: seq<Pick>): Matched
    decreases |plan|
  {
    if plan == [] then Matched(opp, taker, market, [])
    else
      var p := IndexOf(opp, plan[0].id);
      if p == |opp| then Commit(opp, taker, market, plan[1..])
      else
        var q, maker := plan[0].qty, opp[p].order;
        var c := Cost(q, maker.price);
        var left := opp[..p] + Left(opp[p], q) + opp[p + 1..];
        var m := Commit(left, taker.Fill(q, c), maker.price, plan[1..]);
        m.(log := [Filled(taker.id, maker.id, q, c)] + m.log)
  }

  /** All-or-none: fills the order completely or does not trade. */
  function MatchAon(opp: seq<Entry>, taker: Order, market: nat): Matched {
    var plan := Plan(opp, taker, taker.Open());
    if Planned(plan) < taker.Open() then Matched(opp, taker, market, [])
    else Commit(opp, taker, market, plan)
  }

  function Match(opp: seq<Entry>, taker: Order, market: nat): Matched {
    if taker.aon then MatchAon(opp, taker, market) else MatchRegular(opp, taker, market)
  }

  // ---- Lists of orders with distinct ids ----

  ghost predicate IdsDiffer(s: seq<Entry>, i: nat, j: nat)
    requires i < |s| && j < |s|
  {
    s[i].order.id != s[j].order.id
  }

  ghost predicate UniqueIds(s: seq<Entry>) {
    forall i, j :: 0 <= i < j < |s| ==> IdsDiffer(s, i, j)
  }

  lemma {:induction false} AtIndex(s: seq<Entry>, p: nat)
    requires UniqueIds(s) && p < |s|
    ensures IndexOf(s, s[p].order.id) == p
  {
    var i := IndexOf(s, s[p].order.id);
    assert i <= p;
    assert i < p ==> IdsDiffer(s, i, p);
  }

  /** `s` with the entry at `p` replaced by none or by one of the same id. */
  lemma UniqueLeft(a: seq<Entry>, x: Entry, b: seq<Entry>, l: seq<Entry>)
    requires UniqueIds(a + [x] + b) && |l| <= 1 && (l == [] || l[0].order.id == x.order.id)
    ensures UniqueIds(a + l + b)
  {
    var s, t := a + [x] + b, a + l + b;
    forall i, j | 0 <= i < j < |t|
      ensures IdsDiffer(t, i, j)
    {
      var i' := if i < |a| || l != [] then i else i + 1;
      var j' := if j < |a| || l != [] then j else j + 1;
      assert IdsDiffer(s, i', j');
    }
  }

  /** A plan is what regular matching would trade, and its total is how much. */
  lemma {:induction false} PlanTotal(opp: seq<Entry>, taker: Order, market: nat)
    ensures Planned(Plan(opp, taker, taker.Open())) + MatchRegular(opp, taker, market).taker.Open() == taker.Open()
  {
    if opp == [] || taker.Open() == 0 || !Crosses(opp[0].order, taker) {
    } else if Skips(opp[0].order, taker) {
      PlanTotal(opp[1..], taker, market);
    } else {
      var maker := opp[0].order;
      var q := Min(taker.Open(), maker.Open());
      var t := taker.Fill(q, Cost(q, maker.price));
      PlanTotal(opp[1..], t, maker.price);
      SamePlan(opp[1..], taker, t, t.Open());
      var plan := Plan(opp, taker, taker.Open());
      assert plan[1..] == Plan(opp[1..], taker, taker.Open() - q);
    }
  }

  /** A plan depends on the side and limit of the order only. */
  lemma {:induction false} SamePlan(opp: seq<Entry>, a: Order, b: Order, need: nat)
    requires a.price == b.price && a.isBuy == b.isBuy
    ensures Plan(opp, a, need) == Plan(opp, b, need)
  {
    if opp != [] && need > 0 && Crosses(opp[0].order, a) {
      var maker := opp[0].order;
      SamePlan(opp[1..], a, b, need);
      if !(maker.aon && maker.Open() > need) { SamePlan(opp[1..], a, b, need - Min(maker.Open(), need)); }
    }
  }

  /** Executing the plan by ids does what regular matching does by position. */
  lemma {:induction false} CommitIsRegular(pre: seq<Entry>, opp: seq<Entry>, taker: Order, market: nat)
    requires UniqueIds(pre + opp)
    ensures var m := MatchRegular(opp, taker, market);
      Commit(pre + opp, taker, market, Plan(opp, taker, taker.Open())) == m.(opp := pre + m.opp)
    decreases |opp|
  {
    if opp == [] || taker.Open() == 0 || !Crosses(opp[0].order, taker) {
    } else if Skips(opp[0].order, taker) {
      assert pre + opp == (pre + [opp[0]]) + opp[1..];
      CommitIsRegular(pre + [opp[0]], opp[1..], taker, market);
    } else {
      CommitStep(pre, opp, taker, market);
    }
  }

  lemma {:induction false} CommitStep(pre: seq<Entry>, opp: seq<Entry>, taker: Order, market: nat)
    requires UniqueIds(pre + opp)
    requires opp != [] && taker.Open() > 0 && Crosses(opp[0].order, taker) && !Skips(opp[0].order, taker)
    ensures var m := MatchRegular(opp, taker, market);
      Commit(pre + opp, taker, market, Plan(opp, taker, taker.Open())) == m.(opp := pre + m.opp)
    decreases |opp|, 0
  {
    hide Commit, Plan, Left, UniqueIds, MatchRegular, Cost, Crosses, Skips, Order.Fill;
    var maker, rest := opp[0].order, opp[1..];
    var q := Min(taker.Open(), maker.Open());
    var t, left := taker.Fill(q, Cost(q, maker.price)), Left(opp[0], q);
    assert pre + opp == pre + [opp[0]] + rest;
    LeftShort(opp[0], q);
    RegularStep(opp, taker, market);
    UniqueLeft(pre, opp[0], rest, left);
    PlanStep(opp, taker, q, t);
    CommitFirst(pre, opp[0], rest, taker, market, Plan(opp, taker, taker.Open()));
    CommitIsRegular(pre + left, rest, t, maker.price);
    var m := MatchRegular(rest, t, maker.price);
    assert pre + (left + m.opp) == (pre + left) + m.opp;
  }

  lemma LeftShort(e: Entry, q: nat)
    ensures |Left(e, q)| <= 1 && (Left(e, q) == [] || Left(e, q)[0].order.id == e.order.id)
  {
  }

  lemma {:induction false} RegularStep(opp: seq<Entry>, taker: Order, market: nat)
    requires opp != [] && taker.Open() > 0 && Crosses(opp[0].order, taker) && !Skips(opp[0].order, taker)
    ensures var maker := opp[0].order; var q := Min(taker.Open(), maker.Open());
      var c := Cost(q, maker.price);
      var m := MatchRegular(opp[1..], taker.Fill(q, c), maker.price);
      MatchRegular(opp, taker, market)
        == m.(opp := Left(opp[0], q) + m.opp, log := [Filled(taker.id, maker.id, q, c)] + m.log)
  {
  }

  lemma {:induction false} PlanStep(opp: seq<Entry>, taker: Order, q: nat, t: Order)
    requires opp != [] && taker.Open() > 0 && Crosses(opp[0].order, taker) && !Skips(opp[0].order, taker)
    requires q == Min(taker.Open(), opp[0].order.Open()) && t == taker.Fill(q, Cost(q, opp[0].order.price))
    ensures Plan(opp, taker, taker.Open()) == [Pick(opp[0].order.id, q)] + Plan(opp[1..], t, t.Open())
  {
    SamePlan(opp[1..], taker, t, t.Open());
  }

  lemma {:induction false} CommitFirst(pre: seq<Entry>, e: Entry, rest: seq<Entry>, taker: Order, market: nat,
                                       plan: seq<Pick>)
    requires UniqueIds(pre + [e] + rest) && plan != [] && plan[0].id == e.order.id
    ensures var q := plan[0].qty; var c := Cost(q, e.order.price);
      var m := Commit(pre + Left(e, q) + rest, taker.Fill(q, c), e.order.price, plan[1..]);
      Commit(pre + [e] + rest, taker, market, plan) == m.(log := [Filled(taker.id, e.order.id, q, c)] + m.log)
  {
    var s := pre + [e] + rest;
    assert s[|pre|] == e;
    AtIndex(s, |pre|);
    assert s[..|pre|] == pre && s[|pre| + 1..] == rest;
    hide Left;
  }

  /** Each resting order of the plan is found, in its turn, with at least the planned quantity open. */
  ghost predicate Holds(opp: seq<Entry>, taker: Order, plan: seq<Pick>)
    decreases |plan|
  {
    plan == [] ||
    var p := IndexOf(opp, plan[0].id);
    && p < |opp| && 0 < plan[0].qty <= opp[p].order.Open() && plan[0].qty <= taker.Open()
    && (opp[p].order.aon ==> plan[0].qty == opp[p].order.Open())
    && Holds(opp[..p] + Left(opp[p], plan[0].qty) + opp[p + 1..],
             taker.Fill(plan[0].qty, Cost(plan[0].qty, opp[p].order.price)), plan[1..])
  }

  /** No planned order is missing or short when its turn comes. */
  lemma {:induction false} PlanHolds(pre: seq<Entry>, opp: seq<Entry>, taker: Order)
    requires UniqueIds(pre + opp) && forall i :: 0 <= i < |opp| ==> opp[i].order.Open() > 0
    ensures Holds(pre + opp, taker, Plan(opp, taker, taker.Open()))
    decreases |opp|
  {
    if opp == [] || taker.Open() == 0 || !Crosses(opp[0].order, taker) {
    } else if Skips(opp[0].order, taker) {
      assert pre + opp == (pre + [opp[0]]) + opp[1..];
      PlanHolds(pre + [opp[0]], opp[1..], taker);
    } else {
      PlanHoldsStep(pre, opp, taker);
    }
  }

  lemma {:induction false} PlanHoldsStep(pre: seq<Entry>, opp: seq<Entry>, taker: Order)
    requires UniqueIds(pre + opp) && forall i :: 0 <= i < |opp| ==> opp[i].order.Open() > 0
    requires opp != [] && taker.Open() > 0 && Crosses(opp[0].order, taker) && !Skips(opp[0].order, taker)
    ensures Holds(pre + opp, taker, Plan(opp, taker, taker.Open()))
    decreases |opp|, 0
  {
    hide Plan, Left, UniqueIds, Cost, Crosses;
    var maker, rest := opp[0].order, opp[1..];
    var q := Min(taker.Open(), maker.Open());
    var t, left := taker.Fill(q, Cost(q, maker.price)), Left(opp[0], q);
    assert pre + opp == pre + [opp[0]] + rest;
    LeftShort(opp[0], q);
    UniqueLeft(pre, opp[0], rest, left);
    PlanStep(opp, taker, q, t);
    PlanHolds(pre + left, rest, t);
    assert (pre + opp)[|pre|] == opp[0];
    AtIndex(pre + opp, |pre|);
    assert (pre + opp)[..|pre|] == pre && (pre + opp)[|pre| + 1..] == rest;
  }

  /** An all-or-none order trades as any order would if that fills it, and otherwise not at all. */
  lemma {:induction false} AonIsAllOrNothing(opp: seq<Entry>, taker: Order, market: nat)
    requires UniqueIds(opp)
    ensures var m := MatchRegular(opp, taker, market);
      MatchAon(opp, taker, market) == if m.taker.Open() == 0 then m else Matched(opp, taker, market, [])
  {
    PlanTotal(opp, taker, market);
    assert [] + opp == opp;
    CommitIsRegular([], opp, taker, market);
    assert [] + MatchRegular(opp, taker, market).opp == MatchRegular(opp, taker, market).opp;
  }

  // ---- What regular matching amounts to ----

  function Sum(f: seq<nat>): nat {
    if f == [] then 0 else f[0] + Sum(f[1..])
  }

  /** What is left of the resting orders after each has given up its part. */
  function Remains(opp: seq<Entry>, f: seq<nat>): seq<Entry>
    requires |f| == |opp|
  {
    if opp == [] then []
    else
      (if f[0] == 0 then [opp[0]] else Left(opp[0], f[0])) + Remains(opp[1..], f[1..])
  }

  /** The fills reported when each resting order gives up its part, at its own price. */
  function Report(opp: seq<Entry>, f: seq<nat>, taker: nat): seq<Event>
    requires |f| == |opp|
  {
    if opp == [] then []
    else
      var rest := Report(opp[1..], f[1..], taker);
      if f[0] == 0 then rest
      else [Filled(taker, opp[0].order.id, f[0], Cost(f[0], opp[0].order.price))] + rest
  }

  /** The price of the last trade, the market price from before if there is none. */
  function LastPrice(opp: seq<Entry>, f: seq<nat>, market: nat): nat
    requires |f| == |opp|
  {
    if opp == [] then market else LastPrice(opp[1..], f[1..], if f[0] > 0 then opp[0].order.price else market)
  }

  lemma {:induction false} NoLastPrice(opp: seq<Entry>, f: seq<nat>, market: nat)
    requires |f| == |opp| && forall i :: 0 <= i < |f| ==> f[i] == 0
    ensures LastPrice(opp, f, market) == market
  {
    if opp != [] { NoLastPrice(opp[1..], f[1..], market); }
  }

  /** Every order has something open. */
  ghost predicate AllOpen(s: seq<Entry>) {
    forall i :: 0 <= i < |s| ==> s[i].order.Open() > 0
  }

  ghost predicate CrossBefore(opp: seq<Entry>, taker: Order, i: nat, j: nat)
    requires i < |opp| && j < |opp|
  {
    Crosses(opp[j].order, taker) ==> Crosses(opp[i].order, taker)
  }

  /** The orders the limit reaches come first. */
  ghost predicate ReachIsPrefix(opp: seq<Entry>, taker: Order) {
    forall i, j :: 0 <= i < j < |opp| ==> CrossBefore(opp, taker, i, j)
  }

  /** The order at `i` has given up all it has, or is all-or-none for more than was left when it was looked at. */
  ghost predicate Served(opp: seq<Entry>, open: nat, f: seq<nat>, i: nat)
    requires i < |opp| == |f|
  {
    f[i] == opp[i].order.Open()
    || (f[i] == 0 && opp[i].order.aon && opp[i].order.Open() + Sum(f[..i]) > open)
  }

  /** An order that trades trades within the limit, and wholly if it is all-or-none. */
  ghost predicate Fair(opp: seq<Entry>, taker: Order, f: seq<nat>, i: nat)
    requires i < |opp| == |f|
  {
    && f[i] <= opp[i].order.Open()
    && (f[i] > 0 ==> Crosses(opp[i].order, taker) && (opp[i].order.aon ==> f[i] == opp[i].order.Open()))
  }

  /** Nothing trades before everything ahead of it has been served. */
  ghost predicate Priority(opp: seq<Entry>, open: nat, f: seq<nat>, i: nat, j: nat)
    requires i < |opp| == |f| && j < |opp|
  {
    f[j] > 0 ==> Served(opp, open, f, i)
  }

  /** The parts the resting orders give up honour limit, price-time priority and all-or-none. */
  ghost predicate Allotment(opp: seq<Entry>, taker: Order, f: seq<nat>) {
    && |f| == |opp| && Sum(f) <= taker.Open()
    && (forall i :: 0 <= i < |f| ==> Fair(opp, taker, f, i))
    && (forall i, j :: 0 <= i < j < |f| ==> Priority(opp, taker.Open(), f, i, j))
    && (Sum(f) < taker.Open() ==> forall i :: 0 <= i < |f| && Crosses(opp[i].order, taker) ==>
        Served(opp, taker.Open(), f, i))
  }

  lemma {:induction false} NothingTrades(opp: seq<Entry>, taker: Order)
    requires ReachIsPrefix(opp, taker) && (opp == [] || taker.Open() == 0 || !Crosses(opp[0].order, taker))
    ensures var f := seq(|opp|, i => 0);
      Allotment(opp, taker, f) && Sum(f) == 0 && Remains(opp, f) == opp && Report(opp, f, taker.id) == []
  {
    var f := seq(|opp|, i => 0);
    Zeros(opp, f, taker.id);
    if taker.Open() > 0 {
      forall i | 0 <= i < |opp| ensures !Crosses(opp[i].order, taker) {
        if i > 0 { assert CrossBefore(opp, taker, 0, i); }
      }
    }
  }

  lemma {:induction false} Zeros(opp: seq<Entry>, f: seq<nat>, id: nat)
    requires |f| == |opp| && forall i :: 0 <= i < |f| ==> f[i] == 0
    ensures Sum(f) == 0 && Remains(opp, f) == opp && Report(opp, f, id) == []
  {
    if opp != [] { Zeros(opp[1..], f[1..], id); }
  }

  /** What an incoming order has traded with a side comes to these parts. */
  ghost predicate PartsOf(m: Matched, opp: seq<Entry>, o: Order, market: nat, f: seq<nat>) {
    && |f| == |opp| && m.opp == Remains(opp, f) && m.log == Report(opp, f, o.id)
    && m.market == LastPrice(opp, f, market)
    && m.taker == o.(filled := o.filled + Sum(f), cost := m.taker.cost)
  }

  /** Regular matching gives every resting order its part by limit and priority, and nothing else. */
  lemma PriceTimePriority(opp: seq<Entry>, taker: Order, market: nat) returns (f: seq<nat>)
    requires AllOpen(opp) && ReachIsPrefix(opp, taker)
    ensures Allotment(opp, taker, f) && PartsOf(MatchRegular(opp, taker, market), opp, taker, market, f)
  {
    hide Allotment, PartsOf, Cost;
    if opp == [] || taker.Open() == 0 || !Crosses(opp[0].order, taker) {
      NothingTrades(opp, taker);
      f := seq(|opp|, i => 0);
      NothingParts(opp, taker, market, f);
    } else if Skips(opp[0].order, taker) {
      RestReach(opp, taker, taker);
      var g := PriceTimePriority(opp[1..], taker, market);
      f := [0] + g;
      AllotFirst(opp, taker, taker, 0, g);
      SkipParts(opp, taker, market, g);
    } else {
      var q := Min(taker.Open(), opp[0].order.Open());
      var t := taker.Fill(q, Cost(q, opp[0].order.price));
      RestReach(opp, taker, t);
      var g := PriceTimePriority(opp[1..], t, opp[0].order.price);
      f := [q] + g;
      AllotFirst(opp, taker, t, q, g);
      TradeParts(opp, taker, market, q, g);
    }
  }

  lemma NothingParts(opp: seq<Entry>, taker: Order, market: nat, f: seq<nat>)
    requires opp == [] || taker.Open() == 0 || !Crosses(opp[0].order, taker)
    requires |f| == |opp| && forall i :: 0 <= i < |f| ==> f[i] == 0
    ensures PartsOf(MatchRegular(opp, taker, market), opp, taker, market, f)
  {
    Zeros(opp, f, taker.id);
    NoLastPrice(opp, f, market);
  }

  lemma SkipParts(opp: seq<Entry>, taker: Order, market: nat, g: seq<nat>)
    requires opp != [] && taker.Open() > 0 && Crosses(opp[0].order, taker) && Skips(opp[0].order, taker)
    requires PartsOf(MatchRegular(opp[1..], taker, market), opp[1..], taker, market, g)
    ensures PartsOf(MatchRegular(opp, taker, market), opp, taker, market, [0] + g)
  {
    assert ([0] + g)[1..] == g;
  }

  lemma TradeParts(opp: seq<Entry>, taker: Order, market: nat, q: nat, g: seq<nat>)
    requires opp != [] && taker.Open() > 0 && Crosses(opp[0].order, taker) && !Skips(opp[0].order, taker)
    requires q == Min(taker.Open(), opp[0].order.Open()) > 0
    requires var t, px := taker.Fill(q, Cost(q, opp[0].order.price)), opp[0].order.price;
      PartsOf(MatchRegular(opp[1..], t, px), opp[1..], t, px, g)
    ensures PartsOf(MatchRegular(opp, taker, market), opp, taker, market, [q] + g)
  {
    RegularStep(opp, taker, market);
    hide MatchRegular, Left, Cost;
    assert ([q] + g)[1..] == g;
  }

  lemma RestReach(opp: seq<Entry>, taker: Order, t: Order)
    requires opp != [] && ReachIsPrefix(opp, taker) && t.price == taker.price && t.isBuy == taker.isBuy
    ensures ReachIsPrefix(opp[1..], t)
  {
    forall i, j | 0 <= i < j < |opp[1..]|
      ensures CrossBefore(opp[1..], t, i, j)
    {
      assert CrossBefore(opp, taker, i + 1, j + 1);
    }
  }

  /** The first order's part in front of an allotment of the rest. */
  lemma {:induction false} AllotFirst(opp: seq<Entry>, taker: Order, t: Order, q: nat, g: seq<nat>)
    requires opp != [] && AllOpen(opp) && Crosses(opp[0].order, taker) && taker.Open() > 0
    requires t.price == taker.price && t.isBuy == taker.isBuy && t.Open() == taker.Open() - q
    requires if Skips(opp[0].order, taker) then q == 0 else q == Min(taker.Open(), opp[0].order.Open())
    requires Allotment(opp[1..], t, g)
    ensures Allotment(opp, taker, [q] + g) && Sum([q] + g) == q + Sum(g)
    ensures Remains(opp, [q] + g) == (if q == 0 then [opp[0]] else Left(opp[0], q)) + Remains(opp[1..], g)
    ensures Report(opp, [q] + g, taker.id) ==
      (if q == 0 then [] else [Filled(taker.id, opp[0].order.id, q, Cost(q, opp[0].order.price))])
        + Report(opp[1..], g, taker.id)
  {
    var f, rest := [q] + g, opp[1..];
    assert f[1..] == g;
    forall i | 0 <= i < |g|
      ensures Served(opp, taker.Open(), f, i + 1) == Served(rest, t.Open(), g, i)
      ensures Fair(opp, taker, f, i + 1) == Fair(rest, t, g, i)
    {
      assert f[..i + 1][1..] == g[..i] && f[i + 1] == g[i] && opp[i + 1] == rest[i];
    }
    assert f[..0] == [];
    assert q < taker.Open() ==> Served(opp, taker.Open(), f, 0);
    assert Fair(opp, taker, f, 0);
    forall i | 0 <= i < |f| ensures Fair(opp, taker, f, i) {
      if i > 0 { assert Fair(rest, t, g, i - 1); }
    }
    forall i, j | 0 <= i < j < |f| ensures Priority(opp, taker.Open(), f, i, j) {
      if i > 0 {
        assert Priority(rest, t.Open(), g, i - 1, j - 1);
      } else {
        PartOfSum(g, j - 1);
      }
    }
    if Sum(f) < taker.Open() {
      forall i | 0 <= i < |f| && Crosses(opp[i].order, taker) ensures Served(opp, taker.Open(), f, i) {
        if i > 0 { assert Crosses(rest[i - 1].order, t) && Served(rest, t.Open(), g, i - 1); }
      }
    }
  }

  lemma {:induction false} PartOfSum(f: seq<nat>, i: nat)
    requires i < |f|
    ensures f[i] <= Sum(f)
  {
    if i > 0 { PartOfSum(f[1..], i - 1); }
  }

  // ---- Matching one resting order at a time ----

  /** From position `k` of the side on, matching goes on as `m` says it ends. */
  ghost predicate Resumes(m: Matched, e: seq<Entry>, k: nat, t: Order, market: nat, log0: seq<Event>, log: seq<Event>) {
    k <= |e| &&
    var r := MatchRegular(e[k..], t, market);
    m.opp == e[..k] + r.opp && m.taker == r.taker && m.market == r.market && log0 + m.log == log + r.log
  }

  lemma {:induction false} ResumeStart(e: seq<Entry>, t: Order, market: nat, log: seq<Event>)
    ensures Resumes(MatchRegular(e, t, market), e, 0, t, market, log, log)
  {
    assert e[0..] == e;
  }

  lemma ResumeStop(m: Matched, e: seq<Entry>, k: nat, t: Order, market: nat, log0: seq<Event>, log: seq<Event>)
    requires Resumes(m, e, k, t, market, log0, log)
    requires k == |e| || t.Open() == 0 || !Crosses(e[k].order, t)
    ensures m.opp == e && m.taker == t && m.market == market && log == log0 + m.log
  {
    assert e[..k] + e[k..] == e;
    assert log + [] == log;
  }

  lemma ResumeSkip(m: Matched, e: seq<Entry>, k: nat, t: Order, market: nat, log0: seq<Event>, log: seq<Event>)
    requires Resumes(m, e, k, t, market, log0, log)
    requires k < |e| && t.Open() > 0 && Crosses(e[k].order, t) && Skips(e[k].order, t)
    ensures Resumes(m, e, k + 1, t, market, log0, log)
  {
    assert e[k..][1..] == e[k + 1..];
    var r := MatchRegular(e[k + 1..], t, market);
    assert e[..k] + ([e[k]] + r.opp) == e[..k + 1] + r.opp;
  }

  lemma ResumeTrade(m: Matched, e: seq<Entry>, k: nat, t: Order, market: nat, log0: seq<Event>, log: seq<Event>)
    requires Resumes(m, e, k, t, market, log0, log)
    requires k < |e| && t.Open() > 0 && Crosses(e[k].order, t) && !Skips(e[k].order, t)
    ensures var maker := e[k].order; var q := Min(t.Open(), maker.Open()); var c := Cost(q, maker.price);
      var n := maker.Fill(q, c); var log' := log + [Filled(t.id, maker.id, q, c)];
      if n.Open() == 0 then Resumes(m, e[..k] + e[k + 1..], k, t.Fill(q, c), maker.price, log0, log')
      else Resumes(m, e[k := e[k].(order := n)], k + 1, t.Fill(q, c), maker.price, log0, log')
  {
    var maker := e[k].order;
    var q := Min(t.Open(), maker.Open());
    var c := Cost(q, maker.price);
    var n := maker.Fill(q, c);
    assert e[k..][1..] == e[k + 1..] && e[k..][0] == e[k];
    RegularStep(e[k..], t, market);
    hide MatchRegular, Cost;
    var r := MatchRegular(e[k + 1..], t.Fill(q, c), maker.price);
    assert log + ([Filled(t.id, maker.id, q, c)] + r.log) == (log + [Filled(t.id, maker.id, q, c)]) + r.log;
    if n.Open() == 0 {
      var u := e[..k] + e[k + 1..];
      assert u[..k] == e[..k] && u[k..] == e[k + 1..];
      assert [] + r.opp == r.opp;
    } else {
      var x := e[k].(order := n);
      var u := e[k := x];
      assert u[..k + 1] == e[..k] + [x] && u[k + 1..] == e[k + 1..];
      assert e[..k] + ([x] + r.opp) == (e[..k] + [x]) + r.opp;
    }
  }

  /** From position `k` of the side on, planning goes on as `all` says it ends. */
  ghost predicate Planning(all: seq<Pick>, plan: seq<Pick>, e: seq<Entry>, k: nat, t: Order, need: nat, planned: nat) {
    && k <= |e| && planned <= need && planned == Planned(plan)
    && all == plan + Plan(e[k..], t, need - planned)
  }

  lemma {:induction false} PlanningStart(e: seq<Entry>, t: Order, need: nat)
    ensures Planning(Plan(e, t, need), [], e, 0, t, need, 0)
  {
    assert e[0..] == e;
  }

  lemma PlanningStop(all: seq<Pick>, plan: seq<Pick>, e: seq<Entry>, k: nat, t: Order, need: nat, planned: nat)
    requires Planning(all, plan, e, k, t, need, planned)
    requires k == |e| || planned == need || !Crosses(e[k].order, t)
    ensures plan == all
  {
    assert plan + [] == plan;
  }

  lemma PlanningSkip(all: seq<Pick>, plan: seq<Pick>, e: seq<Entry>, k: nat, t: Order, need: nat, planned: nat)
    requires Planning(all, plan, e, k, t, need, planned)
    requires k < |e| && planned < need && Crosses(e[k].order, t) && e[k].order.aon && e[k].order.Open() > need - planned
    ensures Planning(all, plan, e, k + 1, t, need, planned)
  {
    assert e[k..][1..] == e[k + 1..];
  }

  lemma {:induction false} PlannedAppend(plan: seq<Pick>, x: Pick)
    ensures Planned(plan + [x]) == Planned(plan) + x.qty
  {
    if plan == [] {
      assert plan + [x] == [x];
    } else {
      PlannedAppend(plan[1..], x);
      assert (plan + [x])[1..] == plan[1..] + [x];
    }
  }

  lemma PlanningTake(all: seq<Pick>, plan: seq<Pick>, e: seq<Entry>, k: nat, t: Order, need: nat, planned: nat)
    requires Planning(all, plan, e, k, t, need, planned)
    requires k < |e| && planned < need && Crosses(e[k].order, t)
    requires !(e[k].order.aon && e[k].order.Open() > need - planned)
    ensures var q := Min(e[k].order.Open(), need - planned);
      Planning(all, plan + [Pick(e[k].order.id, q)], e, k + 1, t, need, planned + q)
  {
    var q := Min(e[k].order.Open(), need - planned);
    var x := Pick(e[k].order.id, q);
    assert e[k..][1..] == e[k + 1..] && e[k..][0] == e[k];
    PlannedAppend(plan, x);
    var r := Plan(e[k + 1..], t, need - planned - q);
    assert plan + ([x] + r) == (plan + [x]) + r;
  }

  /** From pick `i` of the plan on, execution goes on as `m` says it ends. */
  ghost predicate Committing(m: Matched, e: seq<Entry>, plan: seq<Pick>, i: nat, t: Order, market: nat,
                             log0: seq<Event>, log: seq<Event>) {
    && i <= |plan| && Holds(e, t, plan[i..])
    && var r := Commit(e, t, market, plan[i..]);
       m.opp == r.opp && m.taker == r.taker && m.market == r.market && log0 + m.log == log + r.log
  }

  lemma {:induction false} CommitStart(e: seq<Entry>, plan: seq<Pick>, t: Order, market: nat, log: seq<Event>)
    requires Holds(e, t, plan)
    ensures Committing(Commit(e, t, market, plan), e, plan, 0, t, market, log, log)
  {
    assert plan[0..] == plan;
  }

  lemma CommitStop(m: Matched, e: seq<Entry>, plan: seq<Pick>, t: Order, market: nat, log0: seq<Event>, log: seq<Event>)
    requires Committing(m, e, plan, |plan|, t, market, log0, log)
    ensures m.opp == e && m.taker == t && m.market == market && log == log0 + m.log
  {
    assert plan[|plan|..] == [];
    assert log + [] == log;
  }

  /** The next pick finds its order, and what executing it leaves. */
  lemma {:induction false} CommitNext(m: Matched, e: seq<Entry>, plan: seq<Pick>, i: nat, t: Order, market: nat,
                                      log0: seq<Event>, log: seq<Event>)
    requires Committing(m, e, plan, i, t, market, log0, log) && i < |plan|
    ensures Has(e, plan[i].id) && plan[i].qty <= e[IndexOf(e, plan[i].id)].order.Open()
    ensures var p, q := IndexOf(e, plan[i].id), plan[i].qty; var maker := e[p].order; var c := Cost(q, maker.price);
      var n := maker.Fill(q, c); var log' := log + [Filled(t.id, maker.id, q, c)];
      var e' := if n.Open() == 0 then e[..p] + e[p + 1..] else e[p := e[p].(order := n)];
      Committing(m, e', plan, i + 1, t.Fill(q, c), maker.price, log0, log')
  {
    var p, q := IndexOf(e, plan[i].id), plan[i].qty;
    assert plan[i..][1..] == plan[i + 1..] && plan[i..][0] == plan[i];
    var maker := e[p].order;
    var c := Cost(q, maker.price);
    var n := maker.Fill(q, c);
    var e' := if n.Open() == 0 then e[..p] + e[p + 1..] else e[p := e[p].(order := n)];
    assert e' == e[..p] + Left(e[p], q) + e[p + 1..];
    var r := Commit(e', t.Fill(q, c), maker.price, plan[i + 1..]);
    assert log + ([Filled(t.id, maker.id, q, c)] + r.log) == (log + [Filled(t.id, maker.id, q, c)]) + r.log;
  }
}
