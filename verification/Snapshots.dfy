/** The aggregated view of a book side: one row a price, best price first. */
module Snapshots {
  import opened Orders
  import opened Layout
  import opened Queues
  import opened Blocks
  import opened Places
  import RedBlack

  /** Price, open quantity as a 32-bit sum, and number of orders. */
  datatype Row = Row(price: nat, quantity: nat, count: nat)

  /** How many entries at the front of a list have a given key. */
  function RunLength(s: seq<Entry>, key: nat): (n: nat)
    ensures n <= |s|
    ensures forall i :: 0 <= i < n ==> s[i].key == key
    ensures n < |s| ==> s[n].key != key
  {
    if s == [] || s[0].key != key then 0 else 1 + RunLength(s[1..], key)
  }

  function OpenSum(s: seq<Entry>): nat {
    if s == [] then 0 else s[0].order.Open() + OpenSum(s[1..])
  }

  /** The rows of a ranked list. */
  function Aggregate(s: seq<Entry>): seq<Row>
    decreases |s|
  {
    if s == [] then []
    else
      var n := RunLength(s, s[0].key);
      assert n > 0;
      [Row(s[0].key, Wrap(OpenSum(s[..n])), n)] + Aggregate(s[n..])
  }

  // ---- Rows and levels ----

  ghost predicate BetterLevel(bid: bool, ranked: seq<Level>, i: nat, j: nat)
    requires i < |ranked| && j < |ranked|
  {
    Better(bid, ranked[i].price, ranked[j].price)
  }

  /** Levels in order of priority. */
  ghost predicate BestFirst(bid: bool, ranked: seq<Level>) {
    forall i, j :: 0 <= i < j < |ranked| ==> BetterLevel(bid, ranked, i, j)
  }

  lemma RankingIsBestFirst(bid: bool, order: seq<Level>)
    requires RedBlack.Sorted(order)
    ensures BestFirst(bid, BestFirstOrder(bid, order))
    ensures forall v :: v in BestFirstOrder(bid, order) <==> v in order
  {
    var r, n := BestFirstOrder(bid, order), |order|;
    forall i, j | 0 <= i < j < n ensures BetterLevel(bid, r, i, j) {
      assert if bid then RedBlack.Ascends(order, n - 1 - j, n - 1 - i) else RedBlack.Ascends(order, i, j);
    }
    forall v | v in order ensures v in r {
      var k :| 0 <= k < n && order[k] == v;
      assert r[if bid then n - 1 - k else k] == v;
    }
  }

  ghost function RowOfLevel(s: seq<Item>, v: Level): Row {
    Row(v.price, BlockOf(s, v).quantity, BlockOf(s, v).count)
  }

  ghost function RowsOf(s: seq<Item>, ranked: seq<Level>): (r: seq<Row>)
    ensures |r| == |ranked| && forall i :: 0 <= i < |r| ==> r[i] == RowOfLevel(s, ranked[i])
  {
    seq(|ranked|, i requires 0 <= i < |ranked| => RowOfLevel(s, ranked[i]))
  }

  /** The best level has the first order. */
  lemma {:induction false} FirstLevel(bid: bool, s: seq<Item>, ranked: seq<Level>)
    requires BestFirst(bid, ranked) && Ranked(bid, s) && Owned(s, ranked) && ranked != []
    requires BlockOf(s, ranked[0]).count > 0
    ensures s != [] && s[0].pay.level == ranked[0]
  {
    var f := BlockHead(s, ranked[0]);
    assert s[0].pay.level in ranked;
    var j :| 0 <= j < |ranked| && ranked[j] == s[0].pay.level;
    assert f > 0 ==> InRank(bid, s, 0, f);
    assert j > 0 ==> BetterLevel(bid, ranked, 0, j);
  }

  /** No two levels have one price. */
  lemma OnePrice(bid: bool, ranked: seq<Level>, i: nat, j: nat)
    requires BestFirst(bid, ranked) && i < |ranked| && j < |ranked| && ranked[i].price == ranked[j].price
    ensures i == j
  {
    var a, b := if i < j then i else j, if i < j then j else i;
    assert a == b || BetterLevel(bid, ranked, a, b);
  }

  /** The first run is the first level's, and what follows is the others'. */
  lemma RunIsLevel(bid: bool, s: seq<Item>, ranked: seq<Level>)
    requires BestFirst(bid, ranked) && Ranked(bid, s) && Owned(s, ranked) && ranked != []
    requires s != [] && s[0].pay.level == ranked[0]
    ensures var n := RunLength(EntriesOf(s), EntriesOf(s)[0].key);
      && 0 < n && (forall i :: 0 <= i < n ==> s[i].pay.level == ranked[0])
      && (forall i :: n <= i < |s| ==> s[i].pay.level != ranked[0] && s[i].pay.level in ranked[1..])
  {
    var e := EntriesOf(s);
    var n := RunLength(e, e[0].key);
    forall i | 0 <= i < n ensures s[i].pay.level == ranked[0] {
      assert e[i].key == e[0].key && s[i].pay.level in ranked;
      var j :| 0 <= j < |ranked| && ranked[j] == s[i].pay.level;
      OnePrice(bid, ranked, j, 0);
    }
    forall i | n <= i < |s| ensures s[i].pay.level != ranked[0] && s[i].pay.level in ranked[1..] {
      assert InRank(bid, s, 0, n);
      assert n < i ==> InRank(bid, s, n, i);
      var j :| 0 <= j < |ranked| && ranked[j] == s[i].pay.level;
      assert j > 0 ==> ranked[1..][j - 1] == ranked[j];
    }
  }

  lemma {:induction false} SameOwners(s: seq<Item>, order: seq<Level>, ranked: seq<Level>)
    requires Owned(s, order) && forall v :: v in ranked <==> v in order
    ensures Owned(s, ranked)
    ensures Occupied(s, order, null) ==> forall v :: v in ranked ==> BlockOf(s, v).count > 0
  {
  }

  /** A stretch all of one level. */
  lemma {:induction false} WholeBlock(s: seq<Item>, v: Level)
    requires forall i :: 0 <= i < |s| ==> s[i].pay.level == v
    ensures BlockOf(s, v).count == |s| && BlockOf(s, v).quantity == Wrap(OpenSum(EntriesOf(s)))
  {
    if s != [] {
      WholeBlock(s[1..], v);
      assert EntriesOf(s)[1..] == EntriesOf(s[1..]);
      WrapAdd(s[0].pay.order.Open(), OpenSum(EntriesOf(s[1..])));
      WrapAdd(OpenSum(EntriesOf(s[1..])), Wrap(s[0].pay.order.Open()));
    }
  }

  /** What the first level adds to the summaries. */
  lemma {:induction false} BlockTake(s: seq<Item>, n: nat, v: Level)
    requires n <= |s|
    ensures (forall i :: 0 <= i < n ==> s[i].pay.level != v) ==> BlockOf(s, v) == BlockOf(s[n..], v)
    ensures (forall i :: n <= i < |s| ==> s[i].pay.level != v) ==> BlockOf(s, v) == BlockOf(s[..n], v)
  {
    assert s == s[..n] + s[n..];
    BlockConcat(s[..n], s[n..], v);
    BlockAbsent(s[..n], v);
    BlockAbsent(s[n..], v);
  }

  ghost function FirstOf(s: seq<Item>): Level? {
    if s == [] then null else s[0].pay.level
  }

  /** The rows of a side are its level descriptors, best level first. */
  lemma {:induction false} RowsAreLevels(bid: bool, s: seq<Item>, ranked: seq<Level>)
    requires BestFirst(bid, ranked) && Ranked(bid, s) && Owned(s, ranked)
    requires forall v :: v in ranked ==> BlockOf(s, v).count > 0
    ensures Aggregate(EntriesOf(s)) == RowsOf(s, ranked)
    decreases |ranked|
  {
    if ranked == [] {
      assert FirstOf(s) == null || FirstOf(s) in ranked;
    } else {
      RowsStep(bid, s, ranked);
    }
  }

  lemma AggregateFirst(s: seq<Entry>)
    requires s != []
    ensures var n := RunLength(s, s[0].key);
      Aggregate(s) == [Row(s[0].key, Wrap(OpenSum(s[..n])), n)] + Aggregate(s[n..])
  {
  }

  lemma {:induction false} RowsStep(bid: bool, s: seq<Item>, ranked: seq<Level>)
    requires BestFirst(bid, ranked) && Ranked(bid, s) && Owned(s, ranked) && ranked != []
    requires forall v :: v in ranked ==> BlockOf(s, v).count > 0
    ensures Aggregate(EntriesOf(s)) == RowsOf(s, ranked)
    decreases |ranked|, 0
  {
    hide BlockOf, Owned, Ranked, BestFirst, EntriesOf, RunLength, OpenSum, Wrap, Aggregate;
    var v, rest, e := ranked[0], ranked[1..], EntriesOf(s);
    FirstLevel(bid, s, ranked);
    RunIsLevel(bid, s, ranked);
    AggregateFirst(e);
    var n := RunLength(e, e[0].key);
    FirstRow(s, n, v);
    RestRows(bid, s, ranked, n);
    RowsAreLevels(bid, s[n..], rest);
    assert RowsOf(s, ranked) == [RowOfLevel(s, v)] + RowsOf(s[n..], rest);
  }

  lemma FirstRow(s: seq<Item>, n: nat, v: Level)
    requires 0 < n <= |s| && (forall i :: 0 <= i < n ==> s[i].pay.level == v)
    requires forall i :: n <= i < |s| ==> s[i].pay.level != v
    ensures RowOfLevel(s, v) == Row(EntriesOf(s)[0].key, Wrap(OpenSum(EntriesOf(s)[..n])), n)
    ensures EntriesOf(s)[n..] == EntriesOf(s[n..])
  {
    WholeBlock(s[..n], v);
    BlockTake(s, n, v);
    assert EntriesOf(s[..n]) == EntriesOf(s)[..n];
  }

  /** After the first level the rest is a ranked list of the other levels. */
  lemma {:induction false} RestRows(bid: bool, s: seq<Item>, ranked: seq<Level>, n: nat)
    requires BestFirst(bid, ranked) && Ranked(bid, s) && Owned(s, ranked) && ranked != [] && n <= |s|
    requires forall i :: 0 <= i < n ==> s[i].pay.level == ranked[0]
    requires forall i :: n <= i < |s| ==> s[i].pay.level != ranked[0] && s[i].pay.level in ranked[1..]
    ensures BestFirst(bid, ranked[1..]) && Ranked(bid, s[n..]) && Owned(s[n..], ranked[1..])
    ensures forall v :: v in ranked[1..] ==> BlockOf(s[n..], v) == BlockOf(s, v)
  {
    var rest := ranked[1..];
    forall i, j | 0 <= i < j < |rest|
      ensures BetterLevel(bid, rest, i, j)
    {
      assert BetterLevel(bid, ranked, i + 1, j + 1);
    }
    forall i, j | 0 <= i < j < |s[n..]| ensures InRank(bid, s[n..], i, j) { assert InRank(bid, s, n + i, n + j); }
    forall v | v in rest ensures BlockOf(s[n..], v) == BlockOf(s, v) {
      var i :| 0 <= i < |rest| && rest[i] == v;
      assert BetterLevel(bid, ranked, 0, i + 1) && v != ranked[0];
      BlockTake(s, n, v);
    }
  }

  /** The rows of a ranked list are in strict order. */
  lemma {:induction false} RowsOrdered(high: bool, s: seq<Entry>, i: nat, j: nat)
    requires ByKey(high, s) && i < j < |Aggregate(s)|
    ensures Better(high, Aggregate(s)[i].price, Aggregate(s)[j].price)
    decreases |s|
  {
    if s == [] { return; }
    hide ByKey, OpenSum, Aggregate, Wrap;
    AggregateFirst(s);
    var n := RunLength(s, s[0].key);
    ByKeyRest(high, s, n);
    if i > 0 {
      RowsOrdered(high, s[n..], i - 1, j - 1);
    } else {
      var k := RowFrom(s[n..], j - 1);
      AfterRun(high, s, n, n + k);
    }
  }

  lemma AfterRun(high: bool, s: seq<Entry>, n: nat, k: nat)
    requires ByKey(high, s) && 0 < n <= k < |s| && s[n].key != s[0].key
    ensures Better(high, s[0].key, s[k].key)
  {
    assert KeyOrder(high, s, 0, n);
    assert k > n ==> KeyOrder(high, s, n, k);
  }

  lemma RowFrom(s: seq<Entry>, j: nat) returns (k: nat)
    requires j < |Aggregate(s)|
    ensures k < |s| && s[k].key == Aggregate(s)[j].price
    decreases |s|
  {
    var n := RunLength(s, s[0].key);
    k := 0;
    if j > 0 {
      k := RowFrom(s[n..], j - 1);
      k := n + k;
    }
  }
}
