/**
  * Sums that wrap in Liquibook's matching of an all-or-none order: orders left filled in part,
  * an order dropped from its side, and the largest quantity with which none of it can happen.
  */
module LiquiWraps {
  import opened Orders
  import opened Matching
  import opened LiquiOrders
  import opened LiquiMatching
  import opened LiquiAons

  // ---- One step of the walk ----

  lemma DefersNext(s: seq<Tracker>, inbound: Tracker, st: Seek)
    requires InSide(s, st) && !Stops(s, inbound, st)
    requires !TooLarge(s[st.k], inbound) && !Tries(false, s[st.k], inbound, st.sum)
    ensures Walk(false, s, inbound, st)
      == Walk(false, s, inbound, st.(k := st.k + 1, d := st.d + [st.k], sum := Wrap(st.sum + s[st.k].open)))
  {
    hide Tried, Stops;
    StopsNot(s, inbound, st);
  }

  lemma TriesNext(s: seq<Tracker>, inbound: Tracker, st: Seek, t: Try)
    requires InSide(s, st) && !Stops(s, inbound, st) && Tries(false, s[st.k], inbound, st.sum) && Sum(st.f) == 0
    requires t == Tried(false, s, inbound, st.d, st.k)
    ensures Walk(false, s, inbound, st) == Walk(false, s, inbound, st.(k := st.k + 1, f := t.parts, hit := t.hit))
  {
    hide Tried, Stops;
    StopsNot(s, inbound, st);
  }

  lemma StopsNot(s: seq<Tracker>, inbound: Tracker, st: Seek)
    requires !Stops(s, inbound, st)
    ensures st.k < |s| && Sum(st.f) < inbound.open
  {
  }

  lemma WalkEnds(s: seq<Tracker>, inbound: Tracker, st: Seek)
    requires InSide(s, st) && Stops(s, inbound, st)
    ensures Walk(false, s, inbound, st) == st
  {
  }

  // ---- An order left half filled ----

  /** Three ordinary orders against which an all-or-none order is left half filled. */
  ghost predicate Wrapping(s: seq<Tracker>, inbound: Tracker) {
    && inbound.open == 4294967295 && |s| == 3
    && s[0].open == 2147483648 && s[1].open == 2147483653 && s[2].open == 4294967290
    && forall i :: 0 <= i < |s| ==> !s[i].aon && Reached(s, inbound, i)
  }

  /** The deferred sum wraps to 5, and so does what the first pass finds of the second order. */
  lemma WrappingTry(s: seq<Tracker>, inbound: Tracker)
    requires Wrapping(s, inbound)
    ensures var t := Tried(false, s, inbound, [0, 1], 2); t.parts == [2147483648, 0, 0] && !t.hit
  {
    var ts := EntriesAt(s, [0, 1]);
    assert ts == [s[0], s[1]] && ts[1..] == [s[1]] && ts[1..][1..] == [];
    var p := [2147483648, 2147483653];
    assert Plus(false, 2147483648, 2147483653) == 5;
    assert Offer(false, ts[1..], 4294967295, 2147483648) == [2147483653] + Offer(false, [], 4294967295, 5);
    assert Offer(false, ts, 4294967295, 0) == [2147483648] + Offer(false, ts[1..], 4294967295, 2147483648) == p;
    assert Offered(false, ts[1..], 4294967295, 2147483648) == Offered(false, [], 4294967295, 5) == 5;
    assert p[1..] == [2147483653] && p[1..][1..] == [];
    assert Give(p[1..], 5, 2147483648, 2147483647) == [0] + Give([], 5, 2147483648, 2147483647);
    var g := Give(p, 5, 0, 4294967295);
    assert g == [2147483648, 0];
    assert g[1..] == [0] && g[1..][1..] == [] && Sum(g[1..]) == 0 && Sum(g) == 2147483648;
    assert Scatter(3, [0, 1], g, 0) == [0, 0, 0];
    assert Scatter(3, [0, 1], g, 1) == [2147483648, 0, 0];
    assert Scatter(3, [0, 1], g, 2) == [2147483648, 0, 0];
    assert Plus(false, 4294967290, 2147483648) == 2147483642;
  }

  /** The all-or-none order has traded 2147483648 of its 4294967295 when the walk ends. */
  lemma HalfFilled(s: seq<Tracker>, inbound: Tracker)
    requires Wrapping(s, inbound)
    ensures Aon(s, inbound) == Seek(3, [0, 1], 5, [], [2147483648, 0, 0], false, Normal)
    ensures Sum(Aon(s, inbound).f) == 2147483648 && !NoneWraps(s, inbound)
  {
    hide Tried, Walk, NoneWraps, Sum;
    NoSum(NoParts(3));
    var st, u := Start(s), Seek(1, [0], 2147483648, [], NoParts(3), false, Normal);
    assert [] + [0] == [0] && [0] + [1] == [0, 1] && Wrap(4294967301) == 5;
    WrappingStep(s, inbound, st);
    WrappingStep(s, inbound, u);
    WrappingEnd(s, inbound, Seek(2, [0, 1], 5, [], NoParts(3), false, Normal));
    WrapsSecond(s, inbound);
  }

  lemma WrappingStep(s: seq<Tracker>, inbound: Tracker, st: Seek)
    requires Wrapping(s, inbound) && InSide(s, st) && st.k < 2 && Sum(st.f) == 0 && st.fate == Normal
    requires st.sum == if st.k == 0 then 0 else 2147483648
    ensures Walk(false, s, inbound, st) == Walk(false, s, inbound,
        st.(k := st.k + 1, d := st.d + [st.k], sum := Wrap(st.sum + s[st.k].open)))
  {
    hide Walk, Sum;
    assert Reached(s, inbound, st.k);
    assert Wrap(4294967301) == 5;
    DefersNext(s, inbound, st);
  }

  lemma WrappingEnd(s: seq<Tracker>, inbound: Tracker, st: Seek)
    requires Wrapping(s, inbound) && st == Seek(2, [0, 1], 5, [], NoParts(3), false, Normal)
    ensures Walk(false, s, inbound, st) == Seek(3, [0, 1], 5, [], [2147483648, 0, 0], false, Normal)
    ensures Sum([2147483648, 0, 0]) == 2147483648
  {
    hide Tried, Walk;
    NoSum(NoParts(3));
    var f := [2147483648, 0, 0];
    assert Reached(s, inbound, 2);
    WrappingTry(s, inbound);
    TriesNext(s, inbound, st, Try(f, false));
    assert f[1..] == [0, 0];
    NoSum(f[1..]);
    WalkEnds(s, inbound, st.(k := 3, f := f));
  }

  lemma WrapsSecond(s: seq<Tracker>, inbound: Tracker)
    requires Wrapping(s, inbound)
    ensures !NoneWraps(s, inbound)
  {
    NoSum(NoParts(3));
    var u := Seek(1, [0], 2147483648, [], NoParts(3), false, Normal);
    assert Reached(s, inbound, 0) && Reached(s, inbound, 1);
    assert [] + [0] == [0];
    assert Look(false, s, inbound, Start(s)) == u;
    assert !Clear(s, inbound, u);
  }

  // ---- One unit short ----

  /** Four ordinary orders, each of which makes at most 2^32 + 1 with the incoming order. */
  ghost predicate OneOver(s: seq<Tracker>, inbound: Tracker) {
    var q := inbound.open;
    && 3 <= q <= WORD / 2 + 1 && |s| == 4
    && s[0].open == q - 1 && s[1].open == s[3].open == WORD + 1 - q && s[2].open == 1
    && forall i :: 0 <= i < |s| ==> !s[i].aon && Reached(s, inbound, i)
  }

  /** The first pass: with the second order the sum is 2^32, and what is found starts again at zero. */
  lemma OneOverOffer(s: seq<Tracker>, inbound: Tracker)
    requires OneOver(s, inbound)
    ensures var ts, q := EntriesAt(s, [0, 1, 2]), inbound.open;
      Offer(false, ts, q, 0) == [q - 1, WORD + 1 - q, 1] && Offered(false, ts, q, 0) == 1
  {
    hide Offer, Offered, Reached;
    var ts, q := EntriesAt(s, [0, 1, 2]), inbound.open;
    assert ts[1..][0] == s[1] && ts[1..][1..][0] == s[2] && ts[1..][1..][1..] == [];
    OfferCons(false, ts, q, 0);
    OfferCons(false, ts[1..], q, q - 1);
    assert Wrap(WORD) == 0;
    assert OfferOf(false, ts[1..][0], q, q - 1) == WORD + 1 - q && Plus(false, q - 1, WORD + 1 - q) == 0;
    OfferCons(false, ts[1..][1..], q, 0);
    NothingOffered(q, 1);
  }

  /** The second pass stops after the first order. */
  lemma OneOverGive(q: nat, b: nat)
    requires q > 1
    ensures Give([q - 1, b, 1], 1, 0, q) == [q - 1, 0, 0] && Sum([q - 1, 0, 0]) == q - 1
  {
    var p := [q - 1, b, 1];
    assert p[1..] == [b, 1] && [b, 1][1..] == [1] && [1][1..] == [];
    assert Give([1], 1, q - 1, 1) == [0] && Give([b, 1], 1, q - 1, 1) == [0] + Give([1], 1, q - 1, 1);
    assert [q - 1, 0, 0][1..] == [0, 0] && [0, 0][1..] == [0] && [0][1..] == [];
    assert Sum([0]) == 0 && Sum([0, 0]) == 0;
  }

  lemma OneOverTry(s: seq<Tracker>, inbound: Tracker)
    requires OneOver(s, inbound)
    ensures Tried(false, s, inbound, [0, 1, 2], 3) == Try([inbound.open - 1, 0, 0, 0], false)
  {
    hide Offer, Offered, Give, Sum, Reached;
    var q := inbound.open;
    OneOverOffer(s, inbound);
    OneOverGive(q, WORD + 1 - q);
    var g := [q - 1, 0, 0];
    assert Scatter(4, [0, 1, 2], g, 0) == [0, 0, 0, 0];
    assert Scatter(4, [0, 1, 2], g, 1) == [q - 1, 0, 0, 0];
    assert Scatter(4, [0, 1, 2], g, 2) == [q - 1, 0, 0, 0];
    assert Scatter(4, [0, 1, 2], g, 3) == [q - 1, 0, 0, 0];
    assert Wrap(WORD) == 0;
  }

  /** The bound cannot be raised: one above it the order is left one unit short. */
  lemma OneShort(s: seq<Tracker>, inbound: Tracker)
    requires OneOver(s, inbound)
    ensures Aon(s, inbound) == Seek(4, [0, 1, 2], 1, [], [inbound.open - 1, 0, 0, 0], false, Normal)
    ensures Sum(Aon(s, inbound).f) == inbound.open - 1
    ensures !AllOrNothing(s, inbound, Aon(s, inbound).f, Aon(s, inbound).hit)
    ensures forall i :: 0 <= i < |s| ==> inbound.open + s[i].open <= WORD + 1
  {
    hide Tried, Walk, Scatter, AllOrNothing, OneOver, Reached;
    OneOverWalk(s, inbound);
    var x := [inbound.open - 1, 0, 0, 0];
    assert x[1..] == [0, 0, 0];
    NoSum(x[1..]);
    OneOverPairs(s, inbound);
    NotAll(s, inbound, x);
  }

  lemma OneOverPairs(s: seq<Tracker>, inbound: Tracker)
    requires OneOver(s, inbound)
    ensures 1 < inbound.open - 1 && forall i :: 0 <= i < |s| ==> inbound.open + s[i].open <= WORD + 1
  {
  }

  lemma NotAll(s: seq<Tracker>, inbound: Tracker, f: seq<nat>)
    requires 0 < Sum(f)
    ensures !AllOrNothing(s, inbound, f, false)
  {
  }

  /** The sum kept of the first `k` orders: with the second it is 2^32. */
  function OneOverSum(q: nat, k: nat): int {
    if k == 1 then q - 1 else if k == 3 then 1 else 0
  }

  lemma OneOverStep(s: seq<Tracker>, inbound: Tracker, st: Seek)
    requires OneOver(s, inbound) && InSide(s, st) && st.k < 3 && Sum(st.f) == 0 && st.fate == Normal
    requires st.sum == OneOverSum(inbound.open, st.k)
    ensures OneOverSum(inbound.open, st.k + 1) >= 0
    ensures Walk(false, s, inbound, st)
      == Walk(false, s, inbound,
              st.(k := st.k + 1, d := st.d + [st.k], sum := OneOverSum(inbound.open, st.k + 1)))
  {
    hide Walk, Sum;
    assert Reached(s, inbound, st.k) && Wrap(WORD) == 0;
    DefersNext(s, inbound, st);
  }

  lemma OneOverWalk(s: seq<Tracker>, inbound: Tracker)
    requires OneOver(s, inbound)
    ensures Aon(s, inbound) == Seek(4, [0, 1, 2], 1, [], [inbound.open - 1, 0, 0, 0], false, Normal)
  {
    hide Tried, Walk, Scatter, Sum;
    NoSum(NoParts(4));
    var q := inbound.open;
    var st, u := Start(s), Seek(1, [0], q - 1, [], NoParts(4), false, Normal);
    var v, w := Seek(2, [0, 1], 0, [], NoParts(4), false, Normal), Seek(3, [0, 1, 2], 1, [], NoParts(4), false, Normal);
    assert [] + [0] == [0] && [0] + [1] == [0, 1] && [0, 1] + [2] == [0, 1, 2];
    OneOverStep(s, inbound, st);
    OneOverStep(s, inbound, u);
    OneOverStep(s, inbound, v);
    OneOverEnd(s, inbound, w);
  }

  /** The last order is tried with the others, in vain. */
  lemma OneOverEnd(s: seq<Tracker>, inbound: Tracker, st: Seek)
    requires OneOver(s, inbound) && st == Seek(3, [0, 1, 2], 1, [], NoParts(4), false, Normal)
    ensures Walk(false, s, inbound, st)
      == Seek(4, [0, 1, 2], 1, [], [inbound.open - 1, 0, 0, 0], false, Normal)
  {
    hide Tried, Walk, Scatter, Sum;
    NoSum(NoParts(4));
    var f := [inbound.open - 1, 0, 0, 0];
    assert Reached(s, inbound, 3) && Wrap(WORD) == 0;
    OneOverTry(s, inbound);
    TriesNext(s, inbound, st, Try(f, false));
    WalkEnds(s, inbound, st.(k := 4, f := f));
  }

  // ---- The largest quantity that is safe ----

  /** No order has more than `m` open. */
  ghost predicate Capped(buy: bool, s: seq<Tracker>, t: Tracker, m: nat) {
    && MarketSide(buy, s) && t.order.isBuy != buy && t.order.price != MARKET && 0 < t.open <= m
    && forall i :: 0 <= i < |s| ==> s[i].open <= m
  }

  /** All or nothing, with nothing dropped and nothing undefined. */
  ghost predicate Keeps(s: seq<Tracker>, t: Tracker) {
    AllOrNothing(s, t, Aon(s, t).f, Aon(s, t).hit) && Aon(s, t).fate == Normal
  }

  /** Four orders of sufficient size on the side `buy`, and an order that matches them. */
  ghost predicate Meeting(buy: bool, x: SimpleOrder, rest: seq<SimpleOrder>) {
    && |rest| == 4 && x.isBuy != buy && x.price != MARKET
    && (forall i, j :: 0 <= i < j < |rest| ==> Distinct(rest, i, j))
    && forall i :: 0 <= i < |rest| ==> rest[i].isBuy == buy && rest[i].price == x.price && WORD / 2 < rest[i].qty < WORD
  }

  /** Matching is all or nothing with every side and order exactly if no quantity is above 2^31. */
  lemma CapExact(buy: bool, m: nat, x: SimpleOrder, rest: seq<SimpleOrder>)
    requires m < WORD && Meeting(buy, x, rest)
    ensures (forall s, t :: Capped(buy, s, t, m) ==> Keeps(s, t)) <==> m <= WORD / 2
  {
    hide Keeps;
    if m <= WORD / 2 {
      forall s, t | Capped(buy, s, t, m) ensures Keeps(s, t) { CapKeeps(buy, s, t, m); }
    } else {
      var s, t := OverCap(buy, m, x, rest);
      assert Capped(buy, s, t, m) && !Keeps(s, t);
    }
  }

  lemma CapKeeps(buy: bool, s: seq<Tracker>, t: Tracker, m: nat)
    requires Capped(buy, s, t, m) && m <= WORD / 2
    ensures Keeps(s, t)
  {
    hide MarketSide, NoneWraps, AllOrNothing, Aon;
    assert RoomFor(t, s);
    AonIsFair(s, t);
  }

  lemma OverCap(buy: bool, m: nat, x: SimpleOrder, rest: seq<SimpleOrder>) returns (s: seq<Tracker>, t: Tracker)
    requires WORD / 2 < m < WORD && Meeting(buy, x, rest)
    ensures Capped(buy, s, t, m) && !Keeps(s, t)
  {
    hide AllOrNothing, Aon;
    t := Tracker(x, WORD / 2, true, false);
    s := [Tracker(rest[0], WORD / 2 - 1, false, false), Tracker(rest[1], WORD / 2 + 1, false, false),
          Tracker(rest[2], 1, false, false), Tracker(rest[3], WORD / 2 + 1, false, false)];
    forall i, j | 0 <= i < j < |s| ensures InLine(s, i, j) { assert Distinct(rest, i, j); }
    forall i | 0 <= i < |s| ensures Reached(s, t, i) { assert s[i].order == rest[i]; }
    OneShort(s, t);
  }

  // ---- A try that trades in part, and what comes after it ----

  /** Three ordinary orders that an all-or-none order tries in vain, and one as large as it is. */
  ghost predicate InVain(s: seq<Tracker>, inbound: Tracker) {
    && inbound.open == 2147483658 && |s| == 4
    && s[0].open == s[1].open == 2147483650 && s[2].open == 2147483654 && s[3].open == 2147483658
    && (forall i :: 0 <= i < |s| ==> Reached(s, inbound, i)) && forall i :: 0 <= i < 3 ==> !s[i].aon
  }

  lemma InVainOffer(s: seq<Tracker>, inbound: Tracker)
    requires InVain(s, inbound)
    ensures var ts := EntriesAt(s, [0, 1]);
      Offer(false, ts, 2147483658, 0) == [2147483650, 2147483650] && Offered(false, ts, 2147483658, 0) == 4
  {
    hide Offer, Offered, Reached;
    var ts := EntriesAt(s, [0, 1]);
    assert ts[1..][0] == s[1] && ts[1..][1..] == [];
    OfferCons(false, ts, 2147483658, 0);
    assert Wrap(4294967300) == 4;
    OfferCons(false, ts[1..], 2147483658, 2147483650);
    NothingOffered(2147483658, 4);
  }

  lemma InVainGive()
    ensures Give([2147483650, 2147483650], 4, 0, 2147483658) == [2147483650, 0] && Sum([2147483650, 0]) == 2147483650
  {
    var p := [2147483650, 2147483650];
    assert p[1..] == [2147483650] && [2147483650][1..] == [];
    assert Give([2147483650], 4, 2147483650, 8) == [0];
    assert [2147483650, 0][1..] == [0] && [0][1..] == [] && Sum([0]) == 0;
  }

  lemma InVainTry(s: seq<Tracker>, inbound: Tracker)
    requires InVain(s, inbound)
    ensures Tried(false, s, inbound, [0, 1], 2) == Try([2147483650, 0, 0, 0], false)
  {
    hide Offer, Offered, Give, Sum, Reached;
    InVainOffer(s, inbound);
    InVainGive();
    var g := [2147483650, 0];
    assert Scatter(4, [0, 1], g, 0) == [0, 0, 0, 0];
    assert Scatter(4, [0, 1], g, 1) == [2147483650, 0, 0, 0];
    assert Scatter(4, [0, 1], g, 2) == [2147483650, 0, 0, 0];
    assert Wrap(4294967304) == 8;
  }

  /** With the third order 2147483650 is traded, and the first order leaves its side. */
  lemma TradesInPart(s: seq<Tracker>, inbound: Tracker)
    requires InVain(s, inbound)
    ensures Aon(s, inbound)
      == Walk(false, s, inbound, Seek(3, [0, 1], 4, [], [2147483650, 0, 0, 0], false, Normal))
  {
    hide Tried, Walk, Scatter;
    NoSum(NoParts(4));
    var st, u := Start(s), Seek(1, [0], 2147483650, [], NoParts(4), false, Normal);
    var v := Seek(2, [0, 1], 4, [], NoParts(4), false, Normal);
    assert Reached(s, inbound, 0) && Reached(s, inbound, 1) && Reached(s, inbound, 2);
    assert Wrap(4294967300) == 4;
    assert [] + [0] == [0] && [0] + [1] == [0, 1];
    DefersNext(s, inbound, st);
    DefersNext(s, inbound, u);
    InVainTry(s, inbound);
    TriesNext(s, inbound, v, Try([2147483650, 0, 0, 0], false));
  }

  /** The last order is tried again; if it is ordinary, the first one is asked once more. */
  lemma TriesAgain(s: seq<Tracker>, inbound: Tracker, st: Seek)
    requires InVain(s, inbound) && st == Seek(3, [0, 1], 4, [], [2147483650, 0, 0, 0], false, Normal)
    ensures Walk(false, s, inbound, st)
      == if s[3].aon then Seek(4, [0, 1], 4, [], [2147483650, 0, 0, 8], true, Dropped)
        else st.(k := 4, fate := Undefined)
  {
    assert st.f[1..] == [0, 0, 0];
    NoSum(st.f[1..]);
    assert Sum(st.f) == 2147483650;
    assert Reached(s, inbound, 3);
    assert st.f[3 := 8] == [2147483650, 0, 0, 8];
    SumStep(st.f, 3, 8);
    WalkEnds(s, inbound, Look(false, s, inbound, st));
  }

  /** An all-or-none order gives the last 8 units and is dropped with 2147483650 left. */
  lemma LastIsDropped(s: seq<Tracker>, inbound: Tracker)
    requires InVain(s, inbound) && s[3].aon
    ensures Aon(s, inbound) == Seek(4, [0, 1], 4, [], [2147483650, 0, 0, 8], true, Dropped)
    ensures !AllOrNothing(s, inbound, Aon(s, inbound).f, Aon(s, inbound).hit)
  {
    hide Walk;
    TradesInPart(s, inbound);
    TriesAgain(s, inbound, Seek(3, [0, 1], 4, [], [2147483650, 0, 0, 0], false, Normal));
    assert !PartOk(s, inbound, [2147483650, 0, 0, 8], 3);
  }

  /** Against an ordinary order the entry of the first order is read, which has been erased. */
  lemma ErasedIsRead(s: seq<Tracker>, inbound: Tracker)
    requires InVain(s, inbound) && !s[3].aon
    ensures Aon(s, inbound).fate == Undefined
  {
    hide Walk;
    TradesInPart(s, inbound);
    TriesAgain(s, inbound, Seek(3, [0, 1], 4, [], [2147483650, 0, 0, 0], false, Normal));
  }
}
