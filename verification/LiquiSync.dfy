/**
  * The two copies of open quantity in Liquibook: the tracker's, changed while matching, and
  * the order object's, changed by the callbacks afterwards. They never come apart.
  */
module LiquiSync {
  import opened Orders
  import opened Matching
  import opened LiquiOrders
  import opened LiquiMatching

  type Views = map<SimpleOrder, Status>

  /** `resting` of the adapter: accepted with something open. */
  predicate Standing(o: SimpleOrder, s: Status) {
    s.state == AcceptedOrder && OpenOf(o, s) > 0
  }

  /** The order object says what the book says: this much open, or not standing. */
  ghost predicate Agrees(o: SimpleOrder, open: nat, s: Status) {
    if open > 0 then s.state == AcceptedOrder && OpenOf(o, s) == open else !Standing(o, s)
  }

  /** Open quantity of an order on a side, zero if it is not there. */
  function OpenIn(s: seq<Tracker>, o: SimpleOrder): nat {
    if Where(s, o) < |s| then s[Where(s, o)].open else 0
  }

  ghost predicate Known(s: seq<Tracker>, base: Views) {
    forall i :: 0 <= i < |s| ==> s[i].order in base
  }

  ghost predicate NamesKnown(cb: Callback, base: Views) {
    match cb
    case OnFill(x, m, _, _) => x in base && m in base
    case OnBookUpdate => true
    case _ => cb.order in base
  }

  /** Callbacks name only orders the book has been given. */
  ghost predicate Named(cbs: seq<Callback>, base: Views) {
    forall k :: 0 <= k < |cbs| ==> NamesKnown(cbs[k], base)
  }

  /** An order object says what the book says; one that was dropped from the book stands nevertheless. */
  ghost predicate Stands(o: SimpleOrder, open: nat, lost: set<SimpleOrder>, s: Status) {
    if o in lost then Standing(o, s) else Agrees(o, open, s)
  }

  ghost predicate Nowhere(s: seq<Tracker>, o: SimpleOrder) {
    Where(s, o) == |s|
  }

  /** Dropped orders are known, and on no side. */
  ghost predicate Off(lost: set<SimpleOrder>, a: seq<Tracker>, b: seq<Tracker>, base: Views) {
    forall o :: o in lost ==> o in base && Nowhere(a, o) && Nowhere(b, o)
  }

  /** Once the pending callbacks have been performed, order objects and book agree, dropped orders aside. */
  ghost predicate InBook(bids: seq<Tracker>, asks: seq<Tracker>, lost: set<SimpleOrder>, base: Views,
                         cbs: seq<Callback>) {
    && Known(bids, base) && Known(asks, base) && Named(cbs, base) && Off(lost, bids, asks, base)
    && forall o :: o in base ==> Stands(o, OpenIn(bids, o) + OpenIn(asks, o), lost, TouchAll(o, base[o], cbs))
  }

  /** The same while an order is being matched and is on neither side. */
  ghost predicate InStep(bids: seq<Tracker>, asks: seq<Tracker>, inbound: Tracker, lost: set<SimpleOrder>,
                         base: Views, cbs: seq<Callback>) {
    && Known(bids, base) && Known(asks, base) && Named(cbs, base) && Off(lost, bids, asks, base)
    && inbound.order in base && inbound.order !in lost
    && forall o :: o in base ==>
         Stands(o, if o == inbound.order then inbound.open else OpenIn(bids, o) + OpenIn(asks, o), lost,
                TouchAll(o, base[o], cbs))
  }

  lemma {:induction false} FillsKnown(x: SimpleOrder, s: seq<Tracker>, f: seq<nat>, base: Views)
    requires |f| == |s| && Known(s, base) && x in base
    ensures Named(FillsOf(x, s, f), base) && Known(Reduce(s, f), base)
  {
    if s != [] {
      assert forall i :: 0 <= i < |s[1..]| ==> s[1..][i] == s[i + 1];
      FillsKnown(x, s[1..], f[1..], base);
    }
  }

  lemma OtherSide(buy: bool, s: seq<Tracker>, o: SimpleOrder)
    requires MarketSide(buy, s) && o.isBuy != buy
    ensures Nowhere(s, o)
  {
    var p := Where(s, o);
    assert p < |s| ==> MayStay(buy, s[p]);
  }

  /** What an order has open after the parts are taken. */
  lemma {:induction false} ReducedOpen(buy: bool, s: seq<Tracker>, f: seq<nat>, o: SimpleOrder)
    requires MarketSide(buy, s) && |f| == |s| && forall i :: 0 <= i < |f| ==> f[i] <= s[i].open
    ensures OpenIn(Reduce(s, f), o) == if Where(s, o) < |s| then s[Where(s, o)].open - f[Where(s, o)] else 0
    decreases |s|
  {
    if s != [] {
      SideRest(buy, s, 1);
      ReducedOpen(buy, s[1..], f[1..], o);
      if s[0].order == o {
        NotBehind(buy, s);
        NotInReduced(s[1..], f[1..], o);
      }
    }
  }

  lemma {:induction false} NotInReduced(s: seq<Tracker>, f: seq<nat>, o: SimpleOrder)
    requires |f| == |s| && Nowhere(s, o)
    ensures Nowhere(Reduce(s, f), o)
  {
    if s != [] { NotInReduced(s[1..], f[1..], o); }
  }

  /** An order with nothing open on a side is not on it. */
  lemma OpenNowhere(buy: bool, s: seq<Tracker>, o: SimpleOrder)
    requires MarketSide(buy, s)
    ensures OpenIn(s, o) == 0 <==> Nowhere(s, o)
  {
    var p := Where(s, o);
    if p < |s| { assert MayStay(buy, s[p]); }
  }

  lemma DropsSide(buy: bool, s: seq<Tracker>, f: seq<nat>, drop: set<SimpleOrder>, o: SimpleOrder)
    requires MarketSide(buy, s) && |f| == |s| && Drops(s, f, drop) && o in drop
    ensures o.isBuy == buy && Where(s, o) < |s| && f[Where(s, o)] < s[Where(s, o)].open
  {
    assert MayStay(buy, s[Where(s, o)]);
  }

  /** After the parts are given, every order object says what the book says, or has been dropped. */
  lemma OneStands(buy: bool, s: seq<Tracker>, x: SimpleOrder, f: seq<nat>, drop: set<SimpleOrder>,
                  lost: set<SimpleOrder>, o: SimpleOrder, st: Status, open: nat, own: nat)
    requires MarketSide(buy, s) && |f| == |s| && x.isBuy != buy && forall i :: 0 <= i < |f| ==> f[i] <= s[i].open
    requires Sum(f) <= open && (o.isBuy == buy ==> own == 0) && Drops(s, f, drop)
    requires o in lost ==> Nowhere(s, o) && o != x
    requires Stands(o, if o == x then open else OpenIn(s, o) + own, lost, st)
    ensures Stands(o, if o == x then open - Sum(f) else OpenIn(Reduce(s, Leaving(s, f, drop)), o) + own, lost + drop,
                   TouchAll(o, st, FillsOf(x, s, f)))
  {
    hide TouchAll, FillsOf, Reduce, Where, MarketSide, Leaving, Drops;
    FillsTouch(buy, o, st, x, s, f);
    ReducedOpen(buy, s, Leaving(s, f, drop), o);
    if o.isBuy != buy { OtherSide(buy, s, o); }
    if o in drop { DropsSide(buy, s, f, drop, o); }
    if o == x && open == 0 { Nil(s, f); }
  }

  lemma {:induction false} Nil(s: seq<Tracker>, f: seq<nat>)
    requires Sum(f) == 0
    ensures forall i :: 0 <= i < |f| ==> f[i] == 0
  {
    forall i | 0 <= i < |f| ensures f[i] == 0 { PartOfSum(f, i); }
  }

  /** Matching keeps order objects and book in step. */
  lemma MatchInStep(buy: bool, s: seq<Tracker>, own: seq<Tracker>, inbound: Tracker, f: seq<nat>,
                    drop: set<SimpleOrder>, lost: set<SimpleOrder>, base: Views, cbs: seq<Callback>)
    requires MarketSide(buy, s) && MarketSide(!buy, own) && inbound.order.isBuy != buy
    requires |f| == |s| && Sum(f) <= inbound.open && forall i :: 0 <= i < |f| ==> f[i] <= s[i].open
    requires Drops(s, f, drop) && InStep(s, own, inbound, lost, base, cbs)
    ensures InStep(Reduce(s, Leaving(s, f, drop)), own, inbound.(open := inbound.open - Sum(f)), lost + drop, base,
                   cbs + FillsOf(inbound.order, s, f))
  {
    hide MarketSide, OpenIn, Stands, TouchAll, FillsOf, Reduce, Sum, Nowhere, Drops, Leaving;
    var c, fills := Reduce(s, Leaving(s, f, drop)), FillsOf(inbound.order, s, f);
    FillsKnown(inbound.order, s, f, base);
    FillsKnown(inbound.order, s, Leaving(s, f, drop), base);
    StillOff(buy, s, own, inbound, f, drop, lost, base);
    forall o | o in base
      ensures Stands(o, if o == inbound.order then inbound.open - Sum(f) else OpenIn(c, o) + OpenIn(own, o),
                     lost + drop, TouchAll(o, base[o], cbs + fills))
    {
      OwnNone(buy, own, o);
      OneStands(buy, s, inbound.order, f, drop, lost, o, TouchAll(o, base[o], cbs), inbound.open, OpenIn(own, o));
      TouchConcat(o, base[o], cbs, fills);
    }
  }

  lemma StillOff(buy: bool, s: seq<Tracker>, own: seq<Tracker>, inbound: Tracker, f: seq<nat>, drop: set<SimpleOrder>,
                 lost: set<SimpleOrder>, base: Views)
    requires MarketSide(buy, s) && inbound.order.isBuy != buy && MarketSide(!buy, own)
    requires |f| == |s| && (forall i :: 0 <= i < |f| ==> f[i] <= s[i].open)
    requires Drops(s, f, drop) && Off(lost, s, own, base) && Known(s, base) && inbound.order !in lost
    ensures Off(lost + drop, Reduce(s, Leaving(s, f, drop)), own, base) && inbound.order !in lost + drop
  {
    hide Reduce;
    var g := Leaving(s, f, drop);
    ReduceSide(buy, s, g);
    forall o | o in lost + drop ensures o in base && Nowhere(Reduce(s, g), o) && Nowhere(own, o) && o != inbound.order {
      if o in drop {
        DropsSide(buy, s, f, drop, o);
        ReducedOpen(buy, s, g, o);
        OpenNowhere(buy, Reduce(s, g), o);
        OtherSide(!buy, own, o);
      } else {
        NotInReduced(s, g, o);
      }
    }
  }

  lemma OwnNone(buy: bool, own: seq<Tracker>, o: SimpleOrder)
    requires MarketSide(!buy, own)
    ensures o.isBuy == buy ==> OpenIn(own, o) == 0
  {
    if o.isBuy == buy { OtherSide(!buy, own, o); }
  }

  // ---- An order joins a side ----

  lemma {:induction false} BoundSplits(buy: bool, s: seq<Tracker>, price: nat)
    requires MarketSide(buy, s) && price != MARKET
    ensures forall i :: 0 <= i < UpperBound(buy, s, price) ==> !Before(buy, price, s[i].order.price)
    ensures forall i :: UpperBound(buy, s, price) <= i < |s| ==> Before(buy, price, s[i].order.price)
    decreases |s|
  {
    if s != [] {
      assert MayStay(buy, s[0]);
      if Before(buy, price, s[0].order.price) {
        forall i | 0 <= i < |s| ensures Before(buy, price, s[i].order.price) {
          assert MayStay(buy, s[i]);
          assert i > 0 ==> InLine(s, 0, i);
        }
      } else {
        SideRest(buy, s, 1);
        BoundSplits(buy, s[1..], price);
        assert forall i {:trigger s[i]} :: 1 <= i < |s| ==> s[i] == s[1..][i - 1];
      }
    }
  }

  ghost function Shift(p: nat, i: nat): nat
    requires i != p
  {
    if i < p then i else i - 1
  }

  lemma {:induction false} EmplaceAt(buy: bool, s: seq<Tracker>, t: Tracker, i: nat)
    requires i <= |s|
    ensures var p := UpperBound(buy, s, t.order.price);
      |Emplace(buy, s, t)| == |s| + 1 && Emplace(buy, s, t)[i] == if i == p then t else s[Shift(p, i)]
  {
  }

  lemma EmplaceSide(buy: bool, s: seq<Tracker>, t: Tracker)
    requires MarketSide(buy, s) && MayStay(buy, t) && Nowhere(s, t.order)
    ensures MarketSide(buy, Emplace(buy, s, t))
  {
    var u, p := Emplace(buy, s, t), UpperBound(buy, s, t.order.price);
    BoundSplits(buy, s, t.order.price);
    forall i | 0 <= i < |u| ensures MayStay(buy, u[i]) {
      EmplaceAt(buy, s, t, i);
      if i != p { assert MayStay(buy, s[Shift(p, i)]); }
    }
    forall i, j | 0 <= i < j < |u| ensures InLine(u, i, j) {
      EmplaceAt(buy, s, t, i);
      EmplaceAt(buy, s, t, j);
      assert MayStay(buy, u[i]) && MayStay(buy, u[j]);
      if i != p && j != p { assert InLine(s, Shift(p, i), Shift(p, j)); }
    }
  }

  lemma EmplacedOpen(buy: bool, s: seq<Tracker>, t: Tracker, o: SimpleOrder)
    requires MarketSide(buy, s) && MayStay(buy, t) && Nowhere(s, t.order)
    ensures OpenIn(Emplace(buy, s, t), o) == if o == t.order then t.open else OpenIn(s, o)
  {
    EmplaceSide(buy, s, t);
    var u, p := Emplace(buy, s, t), UpperBound(buy, s, t.order.price);
    EmplaceAt(buy, s, t, p);
    if o == t.order {
      WhereAt(buy, u, p);
    } else {
      var w := Where(s, o);
      if w < |s| {
        EmplaceAt(buy, s, t, if w < p then w else w + 1);
        WhereAt(buy, u, if w < p then w else w + 1);
      } else {
        var v := Where(u, o);
        if v < |u| { EmplaceAt(buy, s, t, v); }
      }
    }
  }

  /** An order that rests is on the book with what it has open. */
  lemma RestInBook(buy: bool, s: seq<Tracker>, own: seq<Tracker>, inbound: Tracker, lost: set<SimpleOrder>,
                   base: Views, cbs: seq<Callback>)
    requires MarketSide(buy, s) && MarketSide(!buy, own) && MayStay(!buy, inbound) && Nowhere(own, inbound.order)
    requires InStep(s, own, inbound, lost, base, cbs)
    ensures InBook(s, Emplace(!buy, own, inbound), lost, base, cbs)
  {
    hide Stands, TouchAll, MarketSide, MayStay, Where, Named, OpenIn, Nowhere;
    EmplacedKnown(!buy, own, inbound, base);
    EmplacedOff(!buy, own, inbound, s, lost, base);
    forall o | o in base
      ensures Stands(o, OpenIn(s, o) + OpenIn(Emplace(!buy, own, inbound), o), lost, TouchAll(o, base[o], cbs))
    {
      EmplacedOpen(!buy, own, inbound, o);
      if o == inbound.order {
        SideOf(!buy, inbound);
        OtherSide(buy, s, o);
        OpenNowhere(buy, s, o);
      }
    }
  }

  lemma EmplacedKnown(buy: bool, s: seq<Tracker>, t: Tracker, base: Views)
    requires Known(s, base) && t.order in base
    ensures Known(Emplace(buy, s, t), base)
  {
  }

  lemma EmplacedOff(buy: bool, s: seq<Tracker>, t: Tracker, other: seq<Tracker>, lost: set<SimpleOrder>, base: Views)
    requires MarketSide(buy, s) && MayStay(buy, t) && Nowhere(s, t.order)
    requires t.order !in lost && Off(lost, other, s, base)
    ensures Off(lost, other, Emplace(buy, s, t), base)
  {
    EmplaceSide(buy, s, t);
    hide MarketSide, MayStay, Emplace;
    forall o | o in lost ensures Nowhere(Emplace(buy, s, t), o) {
      EmplacedOpen(buy, s, t, o);
      OpenNowhere(buy, s, o);
      OpenNowhere(buy, Emplace(buy, s, t), o);
    }
  }

  lemma SideOf(buy: bool, t: Tracker)
    requires MayStay(buy, t)
    ensures t.order.isBuy == buy
  {
  }

  /** An order with nothing open is on no side. */
  lemma DoneInBook(buy: bool, s: seq<Tracker>, own: seq<Tracker>, inbound: Tracker,
                   lost: set<SimpleOrder>, base: Views, cbs: seq<Callback>)
    requires InStep(s, own, inbound, lost, base, cbs) && inbound.open == 0
    requires Nowhere(s, inbound.order) && Nowhere(own, inbound.order)
    ensures InBook(s, own, lost, base, cbs)
  {
  }

  // ---- An order leaves a side ----

  function Without(s: seq<Tracker>, w: nat): seq<Tracker>
    requires w < |s|
  {
    s[..w] + s[w + 1..]
  }

  lemma WithoutSide(buy: bool, s: seq<Tracker>, w: nat)
    requires MarketSide(buy, s) && w < |s|
    ensures MarketSide(buy, Without(s, w))
  {
    var u := Without(s, w);
    forall i | 0 <= i < |u| ensures MayStay(buy, u[i]) { assert MayStay(buy, s[if i < w then i else i + 1]); }
    forall i, j | 0 <= i < j < |u| ensures InLine(u, i, j) {
      assert InLine(s, if i < w then i else i + 1, if j < w then j else j + 1);
    }
  }

  lemma {:induction false} WithoutOpen(buy: bool, s: seq<Tracker>, w: nat, o: SimpleOrder)
    requires MarketSide(buy, s) && w < |s|
    ensures OpenIn(Without(s, w), o) == if o == s[w].order then 0 else OpenIn(s, o)
    ensures o == s[w].order ==> Nowhere(Without(s, w), o)
    ensures o != s[w].order && Where(s, o) < |s| ==>
      Where(Without(s, w), o) < |Without(s, w)| && Without(s, w)[Where(Without(s, w), o)] == s[Where(s, o)]
  {
    hide MarketSide, Where;
    var u := Without(s, w);
    WithoutSide(buy, s, w);
    var p, v := Where(s, o), Where(u, o);
    if o == s[w].order {
      WhereAt(buy, s, w);
      if v < |u| { WhereAt(buy, s, if v < w then v else v + 1); }
    } else if p < |s| {
      assert u[if p < w then p else p - 1] == s[p];
      WhereAt(buy, u, if p < w then p else p - 1);
    } else {
      forall i | 0 <= i < |u| ensures u[i].order != o { assert u[i] == s[if i < w then i else i + 1]; }
    }
  }

  lemma WithoutOff(buy: bool, d: seq<Tracker>, m: seq<Tracker>, w: nat, lost: set<SimpleOrder>, base: Views)
    requires MarketSide(buy, d) && w < |d| && Off(lost, d, m, base)
    ensures Off(lost, m, Without(d, w), base) && d[w].order !in lost
  {
    WithoutSide(buy, d, w);
    WhereAt(buy, d, w);
    hide MarketSide, Without;
    forall o | o in lost ensures Nowhere(Without(d, w), o) {
      WithoutOpen(buy, d, w, o);
      OpenNowhere(buy, d, o);
      OpenNowhere(buy, Without(d, w), o);
    }
  }

  /** What is known of a resting order. */
  lemma EntryHeld(buy: bool, d: seq<Tracker>, m: seq<Tracker>, w: nat, base: Views)
    requires MarketSide(buy, d) && MarketSide(!buy, m) && w < |d| && Known(d, base)
    ensures d[w].order.isBuy == buy && Nowhere(m, d[w].order) && d[w].order in base && Known(Without(d, w), base)
    ensures OpenIn(d, d[w].order) == d[w].open && OpenIn(m, d[w].order) == 0
  {
    assert MayStay(buy, d[w]);
    OtherSide(!buy, m, d[w].order);
    WhereAt(buy, d, w);
  }

  /** Taking a resting order off its side to match it. */
  lemma TakeOut(buy: bool, d: seq<Tracker>, m: seq<Tracker>, w: nat, lost: set<SimpleOrder>, base: Views,
                cbs: seq<Callback>)
    requires MarketSide(buy, d) && MarketSide(!buy, m) && w < |d| && InBook(d, m, lost, base, cbs)
    ensures InStep(m, Without(d, w), d[w], lost, base, cbs)
    ensures Nowhere(m, d[w].order) && Nowhere(Without(d, w), d[w].order) && d[w].order.isBuy == buy
  {
    hide Stands, TouchAll, MarketSide, Nowhere, Known, Named, Off, Without, OpenIn;
    EntryHeld(buy, d, m, w, base);
    WithoutOff(buy, d, m, w, lost, base);
    WithoutOpen(buy, d, w, d[w].order);
    forall o | o in base
      ensures Stands(o, if o == d[w].order then d[w].open else OpenIn(m, o) + OpenIn(Without(d, w), o), lost,
                     TouchAll(o, base[o], cbs))
    {
      WithoutOpen(buy, d, w, o);
    }
  }

  lemma ListedWithout(buy: bool, s: seq<Tracker>, w: nat, aons: seq<SimpleOrder>, rest: seq<SimpleOrder>)
    requires MarketSide(buy, s) && w < |s| && aons != [] && Listed(s, aons) && s[w].order == aons[0]
    requires rest == aons[1..]
    ensures Listed(Without(s, w), rest)
  {
    forall j | 0 <= j < |rest|
      ensures Where(Without(s, w), rest[j]) < |Without(s, w)| && Without(s, w)[Where(Without(s, w), rest[j])].aon
    {
      assert rest[j] == aons[j + 1] && Distinct(aons, 0, j + 1);
      WithoutOpen(buy, s, w, rest[j]);
    }
    forall i, j | 0 <= i < j < |rest| ensures Distinct(rest, i, j) { assert Distinct(aons, i + 1, j + 1); }
  }

  lemma ListedRest(s: seq<Tracker>, aons: seq<SimpleOrder>)
    requires Listed(s, aons) && aons != []
    ensures Listed(s, aons[1..])
  {
    var rest := aons[1..];
    forall j | 0 <= j < |rest|
      ensures Where(s, rest[j]) < |s| && s[Where(s, rest[j])].aon
    {
      assert rest[j] == aons[j + 1];
    }
    forall i, j | 0 <= i < j < |rest| ensures Distinct(rest, i, j) { assert Distinct(aons, i + 1, j + 1); }
  }

  // ---- Submitting an order ----

  /** An order that comes in: whole, with a limit, and on neither side. */
  ghost predicate MayCome(bids: seq<Tracker>, asks: seq<Tracker>, t: Tracker) {
    && t.order.price != MARKET && 0 < t.open == t.order.qty < WORD
    && Nowhere(bids, t.order) && Nowhere(asks, t.order)
  }

  /** Both sides, the incoming order and the fills, when no all-or-none order is about. */
  datatype Added = Added(bids: seq<Tracker>, asks: seq<Tracker>, inbound: Tracker, fills: seq<Callback>)

  function PlainAdd(bids: seq<Tracker>, asks: seq<Tracker>, t: Tracker): Added {
    var p := RegularPass(if t.order.isBuy then asks else bids, t);
    var rests := p.inbound.open > 0 && !t.ioc;
    if t.order.isBuy then Added(if rests then Emplace(true, bids, p.inbound) else bids, p.current, p.inbound, p.fills)
    else Added(p.current, if rests then Emplace(false, asks, p.inbound) else asks, p.inbound, p.fills)
  }

  // ---- Callbacks around a submission ----

  lemma {:induction false} TouchOne(o: SimpleOrder, st: Status, cbs: seq<Callback>, cb: Callback)
    ensures TouchAll(o, st, cbs + [cb]) == Touch(o, TouchAll(o, st, cbs), cb)
  {
    assert (cbs + [cb])[..|cbs|] == cbs;
  }

  lemma NamedOne(cbs: seq<Callback>, cb: Callback, base: Views)
    requires Named(cbs, base) && NamesKnown(cb, base)
    ensures Named(cbs + [cb], base)
  {
  }

  /** A new order that has just been accepted. */
  lemma AcceptInStep(bids: seq<Tracker>, asks: seq<Tracker>, t: Tracker, lost: set<SimpleOrder>, base: Views)
    requires InBook(bids, asks, lost, base, []) && t.order !in base && t.open == t.order.qty
    requires Nowhere(bids, t.order) && Nowhere(asks, t.order)
    ensures InStep(bids, asks, t, lost, base[t.order := FRESH], [OnAccept(t.order)])
  {
    var b := base[t.order := FRESH];
    NamedOne([], OnAccept(t.order), b);
    assert [] + [OnAccept(t.order)] == [OnAccept(t.order)];
    forall o | o in b
      ensures Stands(o, if o == t.order then t.open else OpenIn(bids, o) + OpenIn(asks, o), lost, TouchAll(o, b[o],
          [OnAccept(t.order)]))
    {
      TouchOne(o, b[o], [], OnAccept(t.order));
      if o != t.order { assert TouchAll(o, base[o], []) == base[o]; }
    }
  }

  lemma NotKnown(s: seq<Tracker>, base: Views, o: SimpleOrder)
    requires Known(s, base) && o !in base
    ensures Nowhere(s, o)
  {
  }

  /** Cancelling what is left of an immediate order. */
  lemma ResidualInBook(bids: seq<Tracker>, asks: seq<Tracker>, t: Tracker, lost: set<SimpleOrder>, base: Views,
                       cbs: seq<Callback>)
    requires InStep(bids, asks, t, lost, base, cbs) && t.open > 0 && Nowhere(bids, t.order) && Nowhere(asks, t.order)
    ensures InBook(bids, asks, lost, base, cbs + [OnCancel(t.order)])
  {
    NamedOne(cbs, OnCancel(t.order), base);
    forall o | o in base
      ensures Stands(o, OpenIn(bids, o) + OpenIn(asks, o), lost, TouchAll(o, base[o], cbs + [OnCancel(t.order)]))
    {
      TouchOne(o, base[o], cbs, OnCancel(t.order));
    }
  }

  /** A callback that changes no order object. */
  lemma QuietCallback(bids: seq<Tracker>, asks: seq<Tracker>, lost: set<SimpleOrder>, base: Views,
                      cbs: seq<Callback>, cb: Callback)
    requires InBook(bids, asks, lost, base, cbs) && NamesKnown(cb, base)
    requires (cb.OnBookUpdate? || cb.OnReject? || cb.OnCancelReject?)
    ensures InBook(bids, asks, lost, base, cbs + [cb])
  {
    NamedOne(cbs, cb, base);
    forall o | o in base
      ensures TouchAll(o, base[o], cbs + [cb]) == TouchAll(o, base[o], cbs)
    {
      TouchOne(o, base[o], cbs, cb);
    }
  }

  /** A new order that is refused stands nowhere. */
  lemma RefusedInBook(bids: seq<Tracker>, asks: seq<Tracker>, o: SimpleOrder, lost: set<SimpleOrder>, base: Views)
    requires InBook(bids, asks, lost, base, []) && o !in base
    ensures InBook(bids, asks, lost, base[o := FRESH], [])
  {
    NotKnown(bids, base, o);
    NotKnown(asks, base, o);
  }

  /** When the callbacks have been performed, the order objects are what they were going to be. */
  lemma {:induction false} Performed(bids: seq<Tracker>, asks: seq<Tracker>, lost: set<SimpleOrder>, base: Views,
                                     cbs: seq<Callback>, now: Views)
    requires InBook(bids, asks, lost, base, cbs) && now.Keys == base.Keys && forall o :: o in base ==>
      now[o] == TouchAll(o, base[o], cbs)
    ensures InBook(bids, asks, lost, now, [])
  {
  }

  /** A resting order is cancelled. */
  lemma CancelInBook(buy: bool, s: seq<Tracker>, other: seq<Tracker>, w: nat, lost: set<SimpleOrder>,
                     base: Views)
    requires MarketSide(buy, s) && MarketSide(!buy, other) && w < |s| && InBook(s, other, lost, base, [])
    ensures InBook(Without(s, w), other, lost, base, [OnCancel(s[w].order)])
  {
    var o := s[w].order;
    TakeOut(buy, s, other, w, lost, base, []);
    assert MayStay(buy, s[w]);
    ResidualInBook(other, Without(s, w), s[w], lost, base, []);
    assert [] + [OnCancel(o)] == [OnCancel(o)];
  }

  /** Both sides and the callbacks of a submission when no all-or-none order is about. */
  datatype Outcome = Outcome(bids: seq<Tracker>, asks: seq<Tracker>, cbs: seq<Callback>)

  function PlainSubmit(bids: seq<Tracker>, asks: seq<Tracker>, o: SimpleOrder, ioc: bool): Outcome {
    var a := PlainAdd(bids, asks, Tracker(o, o.qty, false, ioc));
    Outcome(a.bids, a.asks, [OnAccept(o)] + a.fills + if ioc && a.inbound.open > 0 then [OnCancel(o)] else [])
  }

  /** The same with the refusal of an empty order, and the notice that the book has changed. */
  function PlainOutcome(bids: seq<Tracker>, asks: seq<Tracker>, o: SimpleOrder, ioc: bool): Outcome {
    if o.qty == 0 then Outcome(bids, asks, [OnReject(o)])
    else
      var r := PlainSubmit(bids, asks, o, ioc);
      r.(cbs := r.cbs + [OnBookUpdate])
  }
}
