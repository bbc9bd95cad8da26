/** The simple thing a book side is: a list of orders by price, and by arrival inside a price. */
module Queues {
  import opened Orders

  /** A resting order and the price that ranks it: its limit, or its stop while it is parked. */
  datatype Entry = Entry(key: nat, order: Order)

  /** How many entries of a ranked list are at `key` or better. */
  function PlaceOf(bid: bool, s: seq<Entry>, key: nat): (p: nat)
    ensures p <= |s|
  {
    if s == [] || Better(bid, key, s[0].key) then 0 else 1 + PlaceOf(bid, s[1..], key)
  }

  /** The list after `e` has joined behind everything at its price or better. */
  function Enqueue(bid: bool, s: seq<Entry>, e: Entry): seq<Entry> {
    var p := PlaceOf(bid, s, e.key);
    s[..p] + [e] + s[p..]
  }

  /** Position of the first entry with an id, the length of the list if there is none. */
  function IndexOf(s: seq<Entry>, id: nat): (p: nat)
    ensures p <= |s|
    ensures p < |s| ==> s[p].order.id == id
    ensures forall i :: 0 <= i < p ==> s[i].order.id != id
  {
    if s == [] || s[0].order.id == id then 0 else 1 + IndexOf(s[1..], id)
  }

  predicate Has(s: seq<Entry>, id: nat) {
    IndexOf(s, id) < |s|
  }

  /** The list without the entry with an id. */
  function Dequeue(s: seq<Entry>, id: nat): seq<Entry> {
    var p := IndexOf(s, id);
    if p < |s| then s[..p] + s[p + 1..] else s
  }

  ghost predicate KeyOrder(high: bool, s: seq<Entry>, i: nat, j: nat)
    requires i < |s| && j < |s|
  {
    !Better(high, s[j].key, s[i].key)
  }

  /** Highest key first, or lowest first. */
  ghost predicate ByKey(high: bool, s: seq<Entry>) {
    forall i, j :: 0 <= i < j < |s| ==> KeyOrder(high, s, i, j)
  }

  lemma ByKeyRest(high: bool, s: seq<Entry>, n: nat)
    requires ByKey(high, s) && n <= |s|
    ensures ByKey(high, s[n..])
  {
    forall i, j | 0 <= i < j < |s[n..]| ensures KeyOrder(high, s[n..], i, j) { assert KeyOrder(high, s, n + i, n + j); }
  }
}
