/**
  * Liquibook's matching of an all-or-none order. The code adds quantities in 32 bits; the
  * algorithm is written here over both sums, the exact one and the wrapping one, with what
  * holds of either, and with the condition under which they are the same.
  */
module LiquiAons {
  import opened Orders
  import opened Matching
  import opened LiquiOrders
  import opened LiquiMatching

  /** A sum of quantities, exact if `wide`, else in 32 bits. */
  function Plus(wide: bool, a: nat, b: nat): nat {
    if wide then a + b else Wrap(a + b)
  }

  // ---- Proposals and their execution ----

  /** What a deferred order is asked for when `found` has been found. */
  function OfferOf(wide: bool, t: Tracker, max: nat, found: nat): (q: nat)
    requires found < max
    ensures q <= t.open && (t.aon ==> q == 0 || q == t.open)
  {
    if Plus(wide, found, t.open) > max then (if t.aon then 0 else max - found) else t.open
  }

  /** First pass over the deferred orders, until `max` is found. */
  function Offer(wide: bool, ts: seq<Tracker>, max: nat, found: nat): (p: seq<nat>)
    ensures |p| == |ts| && forall j :: 0 <= j < |p| ==> p[j] <= ts[j].open
  {
    if ts == [] then []
    else if found >= max then [0] + Offer(wide, ts[1..], max, found)
    else
      var q := OfferOf(wide, ts[0], max, found);
      [q] + Offer(wide, ts[1..], max, Plus(wide, found, q))
  }

  /** What the first pass takes to have found. */
  function Offered(wide: bool, ts: seq<Tracker>, max: nat, found: nat): nat {
    if ts == [] || found >= max then found
    else Offered(wide, ts[1..], max, Plus(wide, found, OfferOf(wide, ts[0], max, found)))
  }

  /** Second pass: what the orders give, until `found` is traded or the incoming order has nothing open. */
  function Give(p: seq<nat>, found: nat, traded: nat, open: nat): (g: seq<nat>)
    ensures |g| == |p| && Sum(g) <= open && forall j :: 0 <= j < |g| ==> g[j] <= p[j]
  {
    if p == [] then []
    else if traded >= found then [0] + Give(p[1..], found, traded, open)
    else
      var q := Min(p[0], open);
      [q] + Give(p[1..], found, traded + q, open - q)
  }

  /** What the deferred orders give when at least `min` and at most `max` is wanted of them. */
  ghost function Gives(wide: bool, ts: seq<Tracker>, max: nat, min: nat, open: nat): (g: seq<nat>)
    ensures |g| == |ts| && Sum(g) <= open && forall j :: 0 <= j < |g| ==> g[j] <= ts[j].open
  {
    var found := Offered(wide, ts, max, 0);
    if min <= found <= max then Give(Offer(wide, ts, max, 0), found, 0, open)
    else
      NoSum(NoParts(|ts|));
      NoParts(|ts|)
  }

  lemma {:induction false} NoSum(f: seq<nat>)
    requires forall j :: 0 <= j < |f| ==> f[j] == 0
    ensures Sum(f) == 0
  {
    if f != [] { NoSum(f[1..]); }
  }

  // ---- One try: the entry at `k` together with the deferred orders ----

  datatype Try = Try(parts: seq<nat>, hit: bool)

  /** What is wanted of the deferred orders: at most, and at least. */
  function MaxWanted(t: Tracker, open: nat): nat {
    if t.aon && t.open <= open then open - t.open else open
  }

  function MinWanted(t: Tracker, open: nat): nat {
    if open > t.open then open - t.open else 0
  }

  /** Whether the entry completes what the deferred orders have traded. */
  predicate Completes(wide: bool, t: Tracker, open: nat, traded: nat) {
    if t.aon then traded == MaxWanted(t, open) else open <= Plus(wide, t.open, traded)
  }

  ghost function Tried(wide: bool, s: seq<Tracker>, inbound: Tracker, d: seq<nat>, k: nat): (t: Try)
    requires k < |s| && forall j :: 0 <= j < |d| ==> d[j] < k
    ensures |t.parts| == |s|
  {
    var open := inbound.open;
    var g := Gives(wide, EntriesAt(s, d), MaxWanted(s[k], open), MinWanted(s[k], open), open);
    var f := Scatter(|s|, d, g, |d|);
    if Completes(wide, s[k], open, Sum(g)) then Try(f[k := Min(open - Sum(g), s[k].open)], true) else Try(f, false)
  }

  // ---- The walk along the side ----

  /**
    * How the walk ended: as it should, with the last entry taken off its side although it has
    * something left, or with an entry touched that was off its side before.
    */
  datatype Fate = Normal | Dropped | Undefined

  /**
    * Walked up to `k`: the positions of the deferred orders and the sum kept of them, the positions
    * of the all-or-none orders too large, the parts taken, whether the order is done, and how.
    */
  datatype Seek = Seek(k: nat, d: seq<nat>, sum: nat, e: seq<nat>, f: seq<nat>, hit: bool, fate: Fate)

  ghost predicate InSide(s: seq<Tracker>, st: Seek) {
    st.k <= |s| && |st.f| == |s| && forall j :: 0 <= j < |st.d| ==> st.d[j] < st.k
  }

  predicate TooLarge(t: Tracker, inbound: Tracker) {
    t.aon && t.open > inbound.open
  }

  /** The entry is tried: with the deferred orders it seems to suffice. */
  predicate Tries(wide: bool, t: Tracker, inbound: Tracker, sum: nat) {
    !TooLarge(t, inbound) && inbound.open <= Plus(wide, t.open, sum)
  }

  /** The walk is over: nothing open, no further match, or nothing said of how it goes on. */
  ghost predicate Stops(s: seq<Tracker>, inbound: Tracker, st: Seek) {
    || st.k >= |s| || Sum(st.f) >= inbound.open || st.fate == Undefined
    || !Matches(s[st.k].order.isBuy, s[st.k].order.price, inbound.order.price)
  }

  /**
    * A further try, after one that has traded in part. If the entry alone is as large as the order
    * was, nothing is wanted of the deferred orders: it fills what is left and is taken off its side.
    * Otherwise the first deferred order, no longer on its side, is looked at.
    */
  ghost function Again(t: Tracker, inbound: Tracker, st: Seek): (r: Seek)
    requires st.k < |st.f| && Sum(st.f) < inbound.open
    ensures r.k == st.k + 1 && r.d == st.d && r.sum == st.sum && r.e == st.e && |r.f| == |st.f|
  {
    var k := st.k;
    if MaxWanted(t, inbound.open) == 0 then
      st.(k := k + 1, f := st.f[k := inbound.open - Sum(st.f)], hit := true, fate := Dropped)
    else st.(k := k + 1, fate := Undefined)
  }

  ghost function Look(wide: bool, s: seq<Tracker>, inbound: Tracker, st: Seek): (r: Seek)
    requires InSide(s, st) && st.k < |s| && Sum(st.f) < inbound.open
    ensures InSide(s, r) && r.k == st.k + 1
  {
    var k := st.k;
    if TooLarge(s[k], inbound) then st.(k := k + 1, e := st.e + [k])
    else if Tries(wide, s[k], inbound, st.sum) then
      if Sum(st.f) > 0 then Again(s[k], inbound, st)
      else
        var t := Tried(wide, s, inbound, st.d, k);
        st.(k := k + 1, f := t.parts, hit := t.hit)
    else st.(k := k + 1, d := st.d + [k], sum := Plus(wide, st.sum, s[k].open))
  }

  ghost function Walk(wide: bool, s: seq<Tracker>, inbound: Tracker, st: Seek): (r: Seek)
    requires InSide(s, st)
    ensures InSide(s, r)
    decreases |s| - st.k
  {
    if Stops(s, inbound, st) then st else Walk(wide, s, inbound, Look(wide, s, inbound, st))
  }

  ghost function Start(s: seq<Tracker>): (st: Seek)
    ensures InSide(s, st)
  {
    Seek(0, [], 0, [], NoParts(|s|), false, Normal)
  }

  // ---- What holds of either sum ----

  /** Positions that rise, all before `k`. */
  ghost predicate Rising(d: seq<nat>, k: nat) {
    (forall j :: 0 <= j < |d| ==> d[j] < k) && forall i, j :: 0 <= i < j < |d| ==> Rises(d, i, j)
  }

  lemma RisingNext(d: seq<nat>, k: nat)
    requires Rising(d, k)
    ensures Rising(d, k + 1) && Rising(d + [k], k + 1)
  {
    var e := d + [k];
    forall i, j | 0 <= i < j < |e| ensures Rises(e, i, j) { assert j < |d| ==> Rises(d, i, j); }
  }

  ghost predicate Reached(s: seq<Tracker>, inbound: Tracker, i: nat)
    requires i < |s|
  {
    Matches(s[i].order.isBuy, s[i].order.price, inbound.order.price)
  }

  /** The limit reaches every deferred order. */
  ghost predicate Reaches(s: seq<Tracker>, d: seq<nat>, inbound: Tracker) {
    forall j :: 0 <= j < |d| ==> d[j] < |s| && Reached(s, inbound, d[j])
  }

  /** The orders passed over are all-or-none, too large, and have given nothing. */
  ghost predicate Passed(s: seq<Tracker>, inbound: Tracker, st: Seek) {
    Rising(st.e, st.k) && forall j :: 0 <= j < |st.e| ==>
        st.e[j] < |s| == |st.f| && TooLarge(s[st.e[j]], inbound) && st.f[st.e[j]] == 0
  }

  /** Nothing is taken from position `k` on. */
  ghost predicate NothingFrom(f: seq<nat>, k: nat) {
    forall i :: k <= i < |f| ==> f[i] == 0
  }

  /** The last entry was an all-or-none order that has given a part only. */
  ghost predicate DroppedLast(s: seq<Tracker>, st: Seek)
    requires InSide(s, st)
  {
    && st.hit && st.k > 0 && Rising(st.e, st.k - 1)
    && s[st.k - 1].aon && 0 < st.f[st.k - 1] < s[st.k - 1].open
  }

  ghost predicate OnWay(s: seq<Tracker>, inbound: Tracker, st: Seek) {
    && InSide(s, st) && Rising(st.d, st.k) && Reaches(s, st.d, inbound) && Passed(s, inbound, st)
    && (forall j :: 0 <= j < |st.d| ==> !TooLarge(s[st.d[j]], inbound))
    && Within(s, inbound, st.f) && Sum(st.f) <= inbound.open && NothingFrom(st.f, st.k)
    && (st.hit ==> Sum(st.f) == inbound.open) && (st.fate == Dropped ==> DroppedLast(s, st))
  }

  ghost function OrdersAt(s: seq<Tracker>, d: seq<nat>): (o: seq<SimpleOrder>)
    requires forall j :: 0 <= j < |d| ==> d[j] < |s|
    ensures |o| == |d| && forall j :: 0 <= j < |d| ==> o[j] == s[d[j]].order
  {
    seq(|d|, j requires 0 <= j < |d| => s[d[j]].order)
  }

  lemma DeferredIf(s: seq<Tracker>, d: seq<nat>, k: nat)
    requires Rising(d, k) && k <= |s|
    ensures Deferred(s, d, OrdersAt(s, d), k)
  {
  }

  lemma {:induction false} ScatterSum(s: seq<Tracker>, d: seq<nat>, k: nat, p: seq<nat>, n: nat)
    requires Rising(d, k) && k <= |s| && n <= |d| == |p|
    ensures Sum(Scatter(|s|, d, p, n)) == Sum(p[..n])
  {
    if n == 0 {
      NoSum(NoParts(|s|));
    } else {
      DeferredIf(s, d, k);
      ScatterSum(s, d, k, p, n - 1);
      ScatterAt(s, d, OrdersAt(s, d), k, p, n - 1);
      assert n > 1 ==> Rises(d, n - 2, n - 1);
      SumStep(Scatter(|s|, d, p, n - 1), d[n - 1], p[n - 1]);
      SumNext(p, n - 1);
    }
  }

  /** The deferred orders' parts, at their positions. */
  lemma {:induction false} ScatterWithin(s: seq<Tracker>, inbound: Tracker, d: seq<nat>, k: nat, g: seq<nat>)
    requires Rising(d, k) && k <= |s| && |g| == |d| && Reaches(s, d, inbound)
    requires forall j :: 0 <= j < |g| ==> g[j] <= s[d[j]].open
    ensures var f := Scatter(|s|, d, g, |d|);
      && Within(s, inbound, f) && Sum(f) == Sum(g) && NothingFrom(f, k)
      && forall i :: 0 <= i < |f| && f[i] != 0 ==> exists j :: 0 <= j < |d| && d[j] == i && f[i] == g[j]
  {
    DeferredIf(s, d, k);
    ScatterAt(s, d, OrdersAt(s, d), k, g, |d|);
    ScatterSum(s, d, k, g, |d|);
    assert g[..|d|] == g;
    var f := Scatter(|s|, d, g, |d|);
    forall i | 0 <= i < |f| ensures PartIn(s, inbound, f, i) {
      if f[i] != 0 {
        var j :| 0 <= j < |d| && d[j] == i;
        assert Reached(s, inbound, d[j]);
      }
    }
    assert |d| > 0 ==> d[|d| - 1] < k;
  }

  /** Before position `k` only the deferred orders give anything. */
  ghost predicate OnlyFrom(f: seq<nat>, d: seq<nat>, k: nat) {
    forall i :: 0 <= i < |f| && i < k && f[i] != 0 ==> i in d
  }

  /** A try takes no more than anyone has; a try that succeeds fills the incoming order. */
  lemma TriedWithin(wide: bool, s: seq<Tracker>, inbound: Tracker, d: seq<nat>, k: nat)
    requires k < |s| && Rising(d, k) && Reaches(s, d, inbound) && Reached(s, inbound, k) && !TooLarge(s[k], inbound)
    ensures var t := Tried(wide, s, inbound, d, k);
      && Within(s, inbound, t.parts) && Sum(t.parts) <= inbound.open && NothingFrom(t.parts, k + 1)
      && (t.hit ==> Sum(t.parts) == inbound.open)
      && OnlyFrom(t.parts, d, k)
  {
    hide Offer, Offered, Give, Scatter, Gives;
    var open := inbound.open;
    var g := Gives(wide, EntriesAt(s, d), MaxWanted(s[k], open), MinWanted(s[k], open), open);
    var f := Scatter(|s|, d, g, |d|);
    ScatterWithin(s, inbound, d, k, g);
    if Completes(wide, s[k], open, Sum(g)) {
      var q := Min(open - Sum(g), s[k].open);
      SumStep(f, k, q);
      assert q == open - Sum(g);
      var h := f[k := q];
      forall i | 0 <= i < |s| ensures PartIn(s, inbound, h, i) { assert i != k ==> PartIn(s, inbound, f, i); }
    }
  }

  lemma LookOnWay(wide: bool, s: seq<Tracker>, inbound: Tracker, st: Seek)
    requires OnWay(s, inbound, st) && !Stops(s, inbound, st)
    ensures OnWay(s, inbound, Look(wide, s, inbound, st))
  {
    hide Tried, Within, Sum, Again;
    var k := st.k;
    RisingNext(st.d, k);
    RisingNext(st.e, k);
    if !TooLarge(s[k], inbound) && Tries(wide, s[k], inbound, st.sum) {
      if Sum(st.f) > 0 { AgainOnWay(s, inbound, st); } else { TriedWithin(wide, s, inbound, st.d, k); }
    }
  }

  lemma AgainOnWay(s: seq<Tracker>, inbound: Tracker, st: Seek)
    requires OnWay(s, inbound, st) && !Stops(s, inbound, st) && !TooLarge(s[st.k], inbound) && Sum(st.f) > 0
    ensures OnWay(s, inbound, Again(s[st.k], inbound, st))
  {
    hide Sum;
    var k, q := st.k, inbound.open - Sum(st.f);
    RisingNext(st.d, k);
    RisingNext(st.e, k);
    if MaxWanted(s[k], inbound.open) == 0 {
      SumStep(st.f, k, q);
      var h := st.f[k := q];
      assert Reached(s, inbound, k);
      forall i | 0 <= i < |s| ensures PartIn(s, inbound, h, i) { assert PartIn(s, inbound, st.f, i); }
    }
  }

  lemma {:induction false} WalkOnWay(wide: bool, s: seq<Tracker>, inbound: Tracker, st: Seek)
    requires OnWay(s, inbound, st)
    ensures OnWay(s, inbound, Walk(wide, s, inbound, st))
    decreases |s| - st.k
  {
    hide OnWay, Look, Stops;
    if !Stops(s, inbound, st) {
      Onward(s, inbound, st);
      LookOnWay(wide, s, inbound, st);
      WalkOnWay(wide, s, inbound, Look(wide, s, inbound, st));
    }
  }

  lemma Onward(s: seq<Tracker>, inbound: Tracker, st: Seek)
    requires !Stops(s, inbound, st)
    ensures OnWay(s, inbound, st) ==> InSide(s, st) && st.k < |s| && Sum(st.f) < inbound.open
  {
  }

  lemma StartOnWay(s: seq<Tracker>, inbound: Tracker)
    ensures OnWay(s, inbound, Start(s))
  {
    NoSum(NoParts(|s|));
    assert forall i :: 0 <= i < |s| ==> PartIn(s, inbound, NoParts(|s|), i);
  }

  /** The code's walk with an all-or-none order: what it takes, and what it has passed over. */
  ghost function Aon(s: seq<Tracker>, inbound: Tracker): (r: Seek)
    ensures OnWay(s, inbound, r)
  {
    StartOnWay(s, inbound);
    WalkOnWay(false, s, inbound, Start(s));
    Walk(false, s, inbound, Start(s))
  }

  // ---- What a further try would find ----

  /** Proposals made for exactly `max` trade that much, or all the incoming order has open if their sum wraps. */
  lemma {:induction false} WholeOrAll(ts: seq<Tracker>, max: nat, found: nat, open: nat)
    requires found <= max <= found + open < WORD && forall j :: 0 <= j < |ts| ==> ts[j].open < WORD
    requires Offered(false, ts, max, found) == max
    ensures Sum(Give(Offer(false, ts, max, found), max, found, open)) in {max - found, open}
    decreases |ts|
  {
    hide Offer, Offered, Give, OfferOf;
    if found == max || ts == [] {
      GivesNone(ts, max, found, open);
    } else {
      OfferCons(false, ts, max, found);
      var q := OfferOf(false, ts[0], max, found);
      var p := Offer(false, ts[1..], max, Plus(false, found, q));
      GiveCons(q, p, max, found, open);
      OfferFits(ts[0], max, found, open);
      if found + ts[0].open < WORD {
        WholeOrAll(ts[1..], max, found + q, open - q);
      }
    }
  }

  lemma GivesNone(ts: seq<Tracker>, max: nat, found: nat, open: nat)
    requires (found == max || ts == []) && Offered(false, ts, max, found) == max
    ensures found == max && Sum(Give(Offer(false, ts, max, found), max, found, open)) == 0
  {
    GivesNoMore(Offer(false, ts, max, found), max, found, open);
  }

  lemma {:induction false} GivesNoMore(p: seq<nat>, found: nat, traded: nat, open: nat)
    requires traded >= found || p == []
    ensures Sum(Give(p, found, traded, open)) == 0
  {
    if p != [] { GivesNoMore(p[1..], found, traded, open); }
  }

  lemma SumCons(q: nat, f: seq<nat>)
    ensures Sum([q] + f) == q + Sum(f)
  {
    assert ([q] + f)[1..] == f;
  }

  lemma GiveCons(q: nat, p: seq<nat>, found: nat, traded: nat, open: nat)
    requires traded < found
    ensures var r := Min(q, open); var rest := Give(p, found, traded + r, open - r);
      Give([q] + p, found, traded, open) == [r] + rest && Sum([r] + rest) == r + Sum(rest) && Sum(rest) <= open - r
  {
    hide Sum;
    assert ([q] + p)[1..] == p && ([q] + p)[0] == q;
    var r := Min(q, open);
    SumCons(r, Give(p, found, traded + r, open - r));
  }

  /** A proposal that does not wrap fits what is open; one that wraps is for more than that. */
  lemma OfferFits(t: Tracker, max: nat, found: nat, open: nat)
    requires found < max <= found + open < WORD && t.open < WORD
    ensures var q := OfferOf(false, t, max, found);
      if found + t.open < WORD then q <= max - found && Plus(false, found, q) == found + q else q == t.open > open
  {
    if found + t.open >= WORD { assert Wrap(found + t.open) == found + t.open - WORD; }
  }

  /** The first deferred order is proposed and given in full. */
  lemma FirstGiven(ts: seq<Tracker>, open: nat, min: nat)
    requires ts != [] && ts[0].open < open < WORD
    ensures var g := Gives(false, ts, open, min, open); Sum(g) > 0 ==> g[0] == ts[0].open
  {
    hide Offer, Offered, Give;
    var found := Offered(false, ts, open, 0);
    OfferCons(false, ts, open, 0);
    NoSum(NoParts(|ts|));
    var q := OfferOf(false, ts[0], open, 0);
    var p := Offer(false, ts[1..], open, Plus(false, 0, q));
    if found > 0 {
      GiveCons(q, p, found, 0, open);
    } else {
      GivesNoMore([q] + p, found, 0, open);
    }
  }

  /** A try that has traded in part has taken the first deferred order off its side. */
  lemma TriedSpends(s: seq<Tracker>, inbound: Tracker, d: seq<nat>, k: nat)
    requires k < |s| && Rising(d, k) && Reaches(s, d, inbound) && Reached(s, inbound, k) && !TooLarge(s[k], inbound)
    requires inbound.open < WORD && forall i :: 0 <= i < |s| ==> 0 < s[i].open < WORD
    requires d != [] ==> s[d[0]].open < inbound.open
    ensures var t := Tried(false, s, inbound, d, k);
      0 < Sum(t.parts) < inbound.open ==> d != [] && t.parts[d[0]] == s[d[0]].open
  {
    hide Offer, Offered, Give, Scatter, Gives, Within, Sum;
    var open, ts := inbound.open, EntriesAt(s, d);
    var max, min := MaxWanted(s[k], open), MinWanted(s[k], open);
    var g := Gives(false, ts, max, min, open);
    TriedWithin(false, s, inbound, d, k);
    ScatterWithin(s, inbound, d, k, g);
    DeferredIf(s, d, k);
    ScatterAt(s, d, OrdersAt(s, d), k, g, |d|);
    if d == [] {
      NoSum(g);
    } else if s[k].aon {
      AonGives(ts, max, open);
    } else {
      FirstGiven(ts, open, min);
    }
  }

  /** What is wanted exactly is given exactly, or not at all, or everything is given. */
  lemma AonGives(ts: seq<Tracker>, max: nat, open: nat)
    requires max <= open < WORD && forall j :: 0 <= j < |ts| ==> ts[j].open < WORD
    ensures Sum(Gives(false, ts, max, max, open)) in {0, max, open}
  {
    hide Offer, Offered, Give;
    NoSum(NoParts(|ts|));
    if Offered(false, ts, max, 0) == max { WholeOrAll(ts, max, 0, open); }
  }

  /** If something has been traded in part, the first deferred order is off its side. */
  ghost predicate Spent(s: seq<Tracker>, inbound: Tracker, st: Seek) {
    && InSide(s, st) && (st.d == [] ==> st.sum == 0) && (st.d != [] ==> s[st.d[0]].open < inbound.open)
    && (0 < Sum(st.f) < inbound.open ==> st.d != [] && st.f[st.d[0]] == s[st.d[0]].open)
    && (st.fate == Undefined ==> st.k > 0 && MaxWanted(s[st.k - 1], inbound.open) > 0 && 0 < Sum(st.f) < inbound.open)
  }

  lemma LookSpent(s: seq<Tracker>, inbound: Tracker, st: Seek)
    requires OnWay(s, inbound, st) && Spent(s, inbound, st) && !Stops(s, inbound, st)
    requires inbound.open < WORD && forall i :: 0 <= i < |s| ==> 0 < s[i].open < WORD
    ensures Spent(s, inbound, Look(false, s, inbound, st))
  {
    hide Tried, Sum, Within;
    var k := st.k;
    if !TooLarge(s[k], inbound) && Tries(false, s[k], inbound, st.sum) {
      if Sum(st.f) == 0 { TriedSpends(s, inbound, st.d, k); } else { AgainOnWay(s, inbound, st); }
    }
  }

  lemma {:induction false} WalkSpent(s: seq<Tracker>, inbound: Tracker, st: Seek)
    requires OnWay(s, inbound, st) && Spent(s, inbound, st)
    requires inbound.open < WORD && forall i :: 0 <= i < |s| ==> 0 < s[i].open < WORD
    ensures Spent(s, inbound, Walk(false, s, inbound, st))
    decreases |s| - st.k
  {
    hide OnWay, Look, Stops, Spent;
    if !Stops(s, inbound, st) {
      Onward(s, inbound, st);
      LookOnWay(false, s, inbound, st);
      LookSpent(s, inbound, st);
      WalkSpent(s, inbound, Look(false, s, inbound, st));
    }
  }

  /**
    * Where nothing is said, the code reads an entry that it has erased: something is wanted of the
    * deferred orders, and the first of them has been traded in full.
    */
  lemma UndefinedReadsErased(s: seq<Tracker>, inbound: Tracker)
    requires 0 < inbound.open < WORD && (forall i :: 0 <= i < |s| ==> 0 < s[i].open < WORD)
    requires Aon(s, inbound).fate == Undefined
    ensures var st := Aon(s, inbound);
      && 0 < st.k <= |s| && MaxWanted(s[st.k - 1], inbound.open) > 0
      && st.d != [] && st.d[0] < |s| == |st.f| && st.f[st.d[0]] == s[st.d[0]].open
  {
    hide Walk;
    StartOnWay(s, inbound);
    NoSum(NoParts(|s|));
    WalkSpent(s, inbound, Start(s));
  }

  // ---- With exact sums: all or nothing ----

  lemma {:induction false} WideOffer(ts: seq<Tracker>, max: nat, found: nat)
    requires found <= max
    ensures Offer(true, ts, max, found) == Propose(ts, max - found)
    ensures Offered(true, ts, max, found) == found + Sum(Propose(ts, max - found))
  {
    hide Sum, Propose, Offer, Offered, OfferOf, Plus;
    if ts == [] {
      OfferNone(max, found);
    } else {
      ProposeCons(ts, max - found);
      OfferCons(true, ts, max, found);
      if found == max {
        WideOffer(ts[1..], max, found);
      } else {
        WideOfferOf(ts[0], max, found);
        WideOffer(ts[1..], max, found + OfferOf(true, ts[0], max, found));
      }
    }
  }

  lemma OfferNone(max: nat, found: nat)
    requires found <= max
    ensures Offer(true, [], max, found) == [] && Offered(true, [], max, found) == found
    ensures Propose([], max - found) == [] && Sum([]) == 0
  {
  }

  lemma OfferCons(wide: bool, ts: seq<Tracker>, max: nat, found: nat)
    requires ts != []
    ensures found >= max ==> Offer(wide, ts, max, found) == [0] + Offer(wide, ts[1..], max, found)
    ensures found >= max ==> Offered(wide, ts, max, found) == found == Offered(wide, ts[1..], max, found)
    ensures found < max ==> var q := OfferOf(wide, ts[0], max, found);
      && Offer(wide, ts, max, found) == [q] + Offer(wide, ts[1..], max, Plus(wide, found, q))
      && Offered(wide, ts, max, found) == Offered(wide, ts[1..], max, Plus(wide, found, q))
  {
    hide OfferOf, Plus;
  }

  lemma WideOfferOf(t: Tracker, max: nat, found: nat)
    requires found < max
    ensures var q := OfferOf(true, t, max, found);
      q == (if t.open > max - found then (if t.aon then 0 else max - found) else t.open)
        && Plus(true, found, q) == found + q <= max
  {
  }

  lemma ProposeCons(ts: seq<Tracker>, max: nat)
    requires ts != []
    ensures var q := if ts[0].open > max then (if ts[0].aon then 0 else max) else ts[0].open;
      Propose(ts, max) == [q] + Propose(ts[1..], max - q) && Sum(Propose(ts, max)) == q + Sum(Propose(ts[1..], max - q))
    ensures max == 0 ==> Propose(ts, 0) == [0] + Propose(ts[1..], 0) && Sum(Propose(ts, 0)) == Sum(Propose(ts[1..], 0))
  {
  }

  /** What is proposed in full is given in full. */
  lemma {:induction false} GiveAll(p: seq<nat>, found: nat, traded: nat, open: nat)
    requires Sum(p) <= open && found == traded + Sum(p)
    ensures Give(p, found, traded, open) == p
  {
    if p != [] {
      GiveAll(p[1..], found, traded + p[0], open - p[0]);
    }
  }

  lemma {:induction false} WideGives(ts: seq<Tracker>, max: nat, min: nat, open: nat)
    requires max <= open
    ensures Gives(true, ts, max, min, open) == if Sum(Propose(ts, max)) >= min then Propose(ts, max) else NoParts(|ts|)
  {
    WideOffer(ts, max, 0);
    if Sum(Propose(ts, max)) >= min { GiveAll(Propose(ts, max), Sum(Propose(ts, max)), 0, open); }
  }

  /** With exact sums a try fills the incoming order, taking all-or-none orders whole, or takes nothing. */
  lemma WideTried(s: seq<Tracker>, inbound: Tracker, d: seq<nat>, k: nat)
    requires k < |s| && Rising(d, k) && Reaches(s, d, inbound) && Reached(s, inbound, k) && !TooLarge(s[k], inbound)
    ensures var t := Tried(true, s, inbound, d, k);
      Taken(s, inbound, t.parts, Sum(t.parts)) && (t.hit || Sum(t.parts) == 0)
  {
    hide Offer, Offered, Give, Scatter, Gives, Within;
    var open := inbound.open;
    var max, min := MaxWanted(s[k], open), MinWanted(s[k], open);
    WideGives(EntriesAt(s, d), max, min, open);
    NoSum(NoParts(|d|));
    var g := Gives(true, EntriesAt(s, d), max, min, open);
    TriedWithin(true, s, inbound, d, k);
    ScatterWithin(s, inbound, d, k, g);
    var f, t := Scatter(|s|, d, g, |d|), Tried(true, s, inbound, d, k);
    forall i | 0 <= i < |s| ensures PartOk(s, inbound, t.parts, i) {
      WithinAt(s, inbound, t.parts, i);
      if i != k && f[i] != 0 {
        var j :| 0 <= j < |d| && d[j] == i && f[i] == g[j];
      }
    }
  }

  lemma WithinAt(s: seq<Tracker>, inbound: Tracker, f: seq<nat>, i: nat)
    requires Within(s, inbound, f) && i < |s|
    ensures PartIn(s, inbound, f, i)
  {
  }

  /** The order has been filled, by all-or-none orders taken whole if at all, or nothing has been traded. */
  ghost predicate AllOrNothing(s: seq<Tracker>, inbound: Tracker, f: seq<nat>, hit: bool) {
    Taken(s, inbound, f, if hit then inbound.open else 0)
  }

  /** With exact sums the walk is all or nothing, whatever is on the side. */
  lemma {:induction false} WideIsFair(s: seq<Tracker>, inbound: Tracker, st: Seek)
    requires OnWay(s, inbound, st) && AllOrNothing(s, inbound, st.f, st.hit) && st.fate == Normal
    ensures var r := Walk(true, s, inbound, st); AllOrNothing(s, inbound, r.f, r.hit) && r.fate == Normal
    decreases |s| - st.k
  {
    hide OnWay, Tried, Sum, PartOk, Look;
    if !Stops(s, inbound, st) {
      LookOnWay(true, s, inbound, st);
      OnWayFacts(s, inbound, st);
      LookFair(s, inbound, st);
      WideIsFair(s, inbound, Look(true, s, inbound, st));
    }
  }

  lemma OnWayFacts(s: seq<Tracker>, inbound: Tracker, st: Seek)
    requires OnWay(s, inbound, st)
    ensures InSide(s, st) && Rising(st.d, st.k) && Reaches(s, st.d, inbound) && Rising(st.e, st.k)
    ensures Within(s, inbound, st.f) && Sum(st.f) <= inbound.open
  {
  }

  // ---- In 32 bits ----

  ghost function SumOpen(ts: seq<Tracker>): nat {
    if ts == [] then 0 else ts[0].open + SumOpen(ts[1..])
  }

  lemma {:induction false} SumOpenAppend(ts: seq<Tracker>, t: Tracker)
    ensures SumOpen(ts + [t]) == SumOpen(ts) + t.open
  {
    if ts == [] {
      assert ts + [t] == [t] && [t][1..] == [];
    } else {
      SumOpenAppend(ts[1..], t);
      assert (ts + [t])[1..] == ts[1..] + [t];
    }
  }

  /** If all that is deferred fits 32 bits, the first pass does not wrap. */
  lemma {:induction false} NarrowOffer(ts: seq<Tracker>, max: nat, found: nat)
    requires found + SumOpen(ts) < WORD
    ensures Offer(false, ts, max, found) == Offer(true, ts, max, found)
    ensures Offered(false, ts, max, found) == Offered(true, ts, max, found)
  {
    hide Offer, Offered, OfferOf, Plus;
    if ts == [] {
      NothingOffered(max, found);
    } else {
      OfferCons(false, ts, max, found);
      OfferCons(true, ts, max, found);
      if found >= max {
        NarrowOffer(ts[1..], max, found);
      } else {
        NarrowOfferOf(ts[0], max, found);
        NarrowOffer(ts[1..], max, found + OfferOf(true, ts[0], max, found));
      }
    }
  }

  lemma NothingOffered(max: nat, found: nat)
    ensures forall wide :: Offer(wide, [], max, found) == [] && Offered(wide, [], max, found) == found
  {
  }

  lemma NarrowOfferOf(t: Tracker, max: nat, found: nat)
    requires found < max && found + t.open < WORD
    ensures var q := OfferOf(true, t, max, found);
      OfferOf(false, t, max, found) == q && Plus(false, found, q) == Plus(true, found, q) == found + q
  {
  }

  lemma {:induction false} SumBelow(g: seq<nat>, ts: seq<Tracker>)
    requires |g| == |ts| && forall j :: 0 <= j < |g| ==> g[j] <= ts[j].open
    ensures Sum(g) <= SumOpen(ts)
  {
    if g != [] { SumBelow(g[1..], ts[1..]); }
  }

  lemma NarrowTried(s: seq<Tracker>, inbound: Tracker, d: seq<nat>, k: nat)
    requires k < |s| && (forall j :: 0 <= j < |d| ==> d[j] < k) && SumOpen(EntriesAt(s, d)) + s[k].open < WORD
    ensures Tried(false, s, inbound, d, k) == Tried(true, s, inbound, d, k)
  {
    hide Offer, Offered, Give, Scatter, SumOpen;
    var ts, open := EntriesAt(s, d), inbound.open;
    NarrowOffer(ts, MaxWanted(s[k], open), 0);
    SumBelow(Gives(true, ts, MaxWanted(s[k], open), MinWanted(s[k], open), open), ts);
  }

  /** The deferred sum is exact, and below what is wanted. */
  ghost predicate Exact(s: seq<Tracker>, inbound: Tracker, st: Seek) {
    InSide(s, st) && st.sum == SumOpen(EntriesAt(s, st.d)) < inbound.open < WORD
  }

  /** No entry that is looked at brings the deferred sum to 2^32 or more. */
  ghost predicate Clear(s: seq<Tracker>, inbound: Tracker, st: Seek)
    requires InSide(s, st)
    decreases |s| - st.k
  {
    Stops(s, inbound, st) ||
    ((TooLarge(s[st.k], inbound) || s[st.k].open + st.sum < WORD) && Clear(s, inbound, Look(false, s, inbound, st)))
  }

  /** Whether an entry is tried is decided rightly exactly if the sum fits 32 bits. */
  lemma GuardExact(t: Tracker, inbound: Tracker, sum: nat)
    requires sum < inbound.open && 0 < t.open < WORD && inbound.open < WORD && !TooLarge(t, inbound)
    ensures Tries(false, t, inbound, sum) == Tries(true, t, inbound, sum) <==> t.open + sum < WORD
  {
    if t.open + sum >= WORD { assert Wrap(t.open + sum) == t.open + sum - WORD; }
  }

  lemma ClearLook(s: seq<Tracker>, inbound: Tracker, st: Seek)
    requires Exact(s, inbound, st) && !Stops(s, inbound, st)
    requires TooLarge(s[st.k], inbound) || s[st.k].open + st.sum < WORD
    ensures Look(false, s, inbound, st) == Look(true, s, inbound, st)
    ensures Exact(s, inbound, Look(false, s, inbound, st))
  {
    hide Tried, Sum;
    var k := st.k;
    if !TooLarge(s[k], inbound) {
      NarrowTried(s, inbound, st.d, k);
      assert EntriesAt(s, st.d + [k]) == EntriesAt(s, st.d) + [s[k]];
      SumOpenAppend(EntriesAt(s, st.d), s[k]);
    }
  }

  /** Where no sum wraps the code's walk is the walk with exact sums. */
  lemma {:induction false} ClearIsWide(s: seq<Tracker>, inbound: Tracker, st: Seek)
    requires Exact(s, inbound, st) && Clear(s, inbound, st)
    requires Sum(st.f) == 0 || Sum(st.f) >= inbound.open
    requires OnWay(s, inbound, st) && AllOrNothing(s, inbound, st.f, st.hit)
    ensures Walk(false, s, inbound, st) == Walk(true, s, inbound, st)
    decreases |s| - st.k
  {
    hide Look, Exact, OnWay, AllOrNothing, Tried;
    OnWayFacts(s, inbound, st);
    if !Stops(s, inbound, st) {
      ClearLook(s, inbound, st);
      LookOnWay(true, s, inbound, st);
      LookFair(s, inbound, st);
      FairSum(s, inbound, Look(true, s, inbound, st));
      ClearIsWide(s, inbound, Look(false, s, inbound, st));
    }
  }

  lemma LookFair(s: seq<Tracker>, inbound: Tracker, st: Seek)
    requires OnWay(s, inbound, st) && AllOrNothing(s, inbound, st.f, st.hit) && !Stops(s, inbound, st)
    ensures var r := Look(true, s, inbound, st); AllOrNothing(s, inbound, r.f, r.hit) && r.fate == st.fate
  {
    hide Tried, Sum, PartOk, Again;
    var k := st.k;
    FairSum(s, inbound, st);
    if !TooLarge(s[k], inbound) && Tries(true, s[k], inbound, st.sum) {
      WideTried(s, inbound, st.d, k);
      TriedWithin(true, s, inbound, st.d, k);
    }
  }

  lemma FairSum(s: seq<Tracker>, inbound: Tracker, st: Seek)
    requires AllOrNothing(s, inbound, st.f, st.hit)
    ensures Sum(st.f) == 0 || Sum(st.f) >= inbound.open
  {
  }

  /** Both walks take the same steps. */
  ghost predicate SameSteps(s: seq<Tracker>, inbound: Tracker, st: Seek)
    requires InSide(s, st)
    decreases |s| - st.k
  {
    Stops(s, inbound, st) ||
    (Look(false, s, inbound, st) == Look(true, s, inbound, st) && SameSteps(s, inbound, Look(false, s, inbound, st)))
  }

  /** The code takes the steps of the algorithm exactly if no sum on its way wraps. */
  lemma {:induction false} ClearExact(s: seq<Tracker>, inbound: Tracker, st: Seek)
    requires Exact(s, inbound, st) && OnWay(s, inbound, st) && AllOrNothing(s, inbound, st.f, st.hit)
    requires forall i :: 0 <= i < |s| ==> 0 < s[i].open < WORD
    ensures Clear(s, inbound, st) <==> SameSteps(s, inbound, st)
    decreases |s| - st.k
  {
    hide AllOrNothing, OnWay, Exact, Tried;
    OnWayFacts(s, inbound, st);
    FairSum(s, inbound, st);
    if !Stops(s, inbound, st) {
      if TooLarge(s[st.k], inbound) || s[st.k].open + st.sum < WORD {
        ClearLook(s, inbound, st);
        LookOnWay(false, s, inbound, st);
        FairNext(s, inbound, st);
        ClearExact(s, inbound, Look(false, s, inbound, st));
      } else {
        WrapParts(s, inbound, st);
      }
    }
  }

  lemma FairNext(s: seq<Tracker>, inbound: Tracker, st: Seek)
    requires Exact(s, inbound, st) && OnWay(s, inbound, st) && AllOrNothing(s, inbound, st.f, st.hit)
    requires !Stops(s, inbound, st)
    requires TooLarge(s[st.k], inbound) || s[st.k].open + st.sum < WORD
    ensures var r := Look(false, s, inbound, st); AllOrNothing(s, inbound, r.f, r.hit)
  {
    hide Look, OnWay, AllOrNothing, Tried;
    OnWayFacts(s, inbound, st);
    FairSum(s, inbound, st);
    ClearLook(s, inbound, st);
    LookFair(s, inbound, st);
  }

  /** Where a sum wraps the code passes over an entry that the algorithm tries. */
  lemma WrapParts(s: seq<Tracker>, inbound: Tracker, st: Seek)
    requires Exact(s, inbound, st) && !Stops(s, inbound, st) && 0 < s[st.k].open < WORD
    requires !TooLarge(s[st.k], inbound) && s[st.k].open + st.sum >= WORD
    ensures Look(false, s, inbound, st) != Look(true, s, inbound, st)
  {
    hide Tried;
    GuardExact(s[st.k], inbound, st.sum);
    assert |Look(false, s, inbound, st).d| == |st.d| + 1;
  }

  // ---- A condition on the sides ----

  /** With any order of the side the incoming order makes no more than 2^32. */
  ghost predicate RoomFor(t: Tracker, s: seq<Tracker>) {
    forall i :: 0 <= i < |s| ==> t.open + s[i].open <= WORD
  }

  lemma {:induction false} RoomIsClear(s: seq<Tracker>, inbound: Tracker, st: Seek)
    requires RoomFor(inbound, s) && Exact(s, inbound, st)
    ensures Clear(s, inbound, st)
    decreases |s| - st.k
  {
    hide Exact, Look;
    ExactSum(s, inbound, st);
    if !Stops(s, inbound, st) {
      ClearLook(s, inbound, st);
      RoomIsClear(s, inbound, Look(false, s, inbound, st));
    }
  }

  lemma ExactSum(s: seq<Tracker>, inbound: Tracker, st: Seek)
    requires Exact(s, inbound, st)
    ensures InSide(s, st) && st.sum < inbound.open
  {
  }

  lemma StartExact(s: seq<Tracker>, inbound: Tracker)
    requires 0 < inbound.open < WORD
    ensures Exact(s, inbound, Start(s)) && AllOrNothing(s, inbound, Start(s).f, false) && Sum(Start(s).f) == 0
  {
    NoSum(NoParts(|s|));
    forall i | 0 <= i < |s| ensures PartOk(s, inbound, Start(s).f, i) { assert PartIn(s, inbound, Start(s).f, i); }
  }

  /** No sum wraps on the way of the order. */
  ghost predicate NoneWraps(s: seq<Tracker>, inbound: Tracker) {
    Clear(s, inbound, Start(s))
  }

  /** The order takes its side within limits, and all or nothing unless a sum wraps. */
  lemma AonIsFair(s: seq<Tracker>, inbound: Tracker)
    requires 0 < inbound.open < WORD
    ensures NoneWraps(s, inbound) ==> AllOrNothing(s, inbound, Aon(s, inbound).f, Aon(s, inbound).hit)
    ensures NoneWraps(s, inbound) ==> Aon(s, inbound).fate == Normal
    ensures RoomFor(inbound, s) ==> NoneWraps(s, inbound)
  {
    hide Walk, Clear, AllOrNothing, OnWay, Exact;
    StartOnWay(s, inbound);
    StartExact(s, inbound);
    if Clear(s, inbound, Start(s)) {
      ClearIsWide(s, inbound, Start(s));
      WideIsFair(s, inbound, Start(s));
    }
    if RoomFor(inbound, s) { RoomIsClear(s, inbound, Start(s)); }
  }

  /** The code walks as the algorithm does exactly if no sum wraps. */
  lemma NoneWrapsExact(s: seq<Tracker>, inbound: Tracker)
    requires 0 < inbound.open < WORD && forall i :: 0 <= i < |s| ==> 0 < s[i].open < WORD
    ensures NoneWraps(s, inbound) <==> SameSteps(s, inbound, Start(s))
  {
    StartOnWay(s, inbound);
    StartExact(s, inbound);
    ClearExact(s, inbound, Start(s));
  }
}
