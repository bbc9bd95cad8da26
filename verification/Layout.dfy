/**
  * The two records a book side is built from: the price-level descriptor and the
  * priority-indicated node (PIN), a fixed block of order slots threaded by two
  * linked lists over one array of links.
  */
module Layout {
  import opened Orders

  /** The null link of a PIN, the all-ones 16-bit value. */
  const NPOS: nat := 0xFFFF

  datatype Color = Red | Black

  /** Position of a resting order: a node of the chain and a slot in it. */
  datatype Loc = Nil | At(node: PinNode, slot: nat)

  /** Contents of a slot: the order and the level that owns it. */
  datatype Payload = Payload(order: Order, level: Level?)

  /** A resting order with its position. */
  datatype Item = Item(loc: Loc, pay: Payload)

  datatype Link = Link(prev: nat, next: nat)

  /**
    * A price-level descriptor: an address and an immutable price. Its mutable fields live
    * in the memory maps of the structures that own them.
    */
  class Level {
    const price: nat

    constructor (price: nat)
      ensures this.price == price
    {
      this.price := price;
    }
  }

  ghost function InsertAt<T>(s: seq<T>, k: nat, x: T): (r: seq<T>)
    requires k <= |s|
    ensures |r| == |s| + 1
    ensures forall i {:trigger r[i]} :: 0 <= i < |r| ==>
        r[i] == (if i < k then s[i] else if i == k then x else s[i - 1])
  {
    s[..k] + [x] + s[k..]
  }

  function RemoveAt<T>(s: seq<T>, k: nat): (r: seq<T>)
    requires k < |s|
    ensures |r| == |s| - 1
    ensures forall i {:trigger r[i]} :: 0 <= i < |r| ==> r[i] == (if i < k then s[i] else s[i + 1])
  {
    s[..k] + s[k + 1..]
  }

  ghost predicate Differ(s: seq<nat>, i: nat, j: nat)
    requires i < |s| && j < |s|
  {
    s[i] != s[j]
  }

  ghost predicate Distinct(s: seq<nat>) {
    forall i, j :: 0 <= i < j < |s| ==> Differ(s, i, j)
  }

  lemma Alone(s: seq<nat>, k: nat)
    requires Distinct(s) && k < |s|
    ensures forall i :: 0 <= i < |s| && i != k ==> s[i] != s[k]
  {
    forall i | 0 <= i < |s| && i != k
      ensures s[i] != s[k]
    {
      assert if i < k then Differ(s, i, k) else Differ(s, k, i);
    }
  }

  /** Neighbours of position `i` in a list of slots, the null link at either end. */
  ghost function PrevIn(s: seq<nat>, i: nat): nat
    requires i < |s|
  {
    if i == 0 then NPOS else s[i - 1]
  }

  ghost function NextIn(s: seq<nat>, i: nat): nat
    requires i < |s|
  {
    if i + 1 == |s| then NPOS else s[i + 1]
  }

  /** Doubly linked list through `links` visiting the slots `used` in order. */
  ghost predicate Threaded(links: seq<Link>, used: seq<nat>) {
    forall i :: 0 <= i < |used| ==> Strung(links, used, i)
  }

  /** The links of the slot at position `i` are its neighbours. */
  ghost predicate Strung(links: seq<Link>, used: seq<nat>, i: nat)
    requires i < |used|
  {
    used[i] < |links| && links[used[i]] == Link(PrevIn(used, i), NextIn(used, i))
  }

  /** Singly linked list through `links` visiting the slots `spare` in order. */
  ghost predicate FreeListed(links: seq<Link>, spare: seq<nat>) {
    forall i :: 0 <= i < |spare| ==>
      && spare[i] < |links|
      && links[spare[i]].next == NextIn(spare, i)
  }

  ghost predicate NotBoth(x: nat, a: seq<nat>, b: seq<nat>) {
    x !in a || x !in b
  }

  ghost predicate Apart(a: seq<nat>, b: seq<nat>) {
    forall x :: NotBoth(x, a, b)
  }

  lemma InsertMembers(s: seq<nat>, k: nat, x: nat)
    requires k <= |s|
    ensures forall y :: y in InsertAt(s, k, x) <==> y == x || y in s
  {
    var u := InsertAt(s, k, x);
    forall y | y in s ensures y in u {
      var i :| 0 <= i < |s| && s[i] == y;
      assert u[if i < k then i else i + 1] == y;
    }
    assert u[k] == x;
  }

  lemma RemoveMembers(s: seq<nat>, k: nat)
    requires k < |s|
    ensures forall y :: y in RemoveAt(s, k) ==> y in s
  {
  }

  /** Used and free slots are pairwise different and together as many as the node has. */
  ghost predicate Partitioned(used: seq<nat>, spare: seq<nat>, cap: nat) {
    && Distinct(used) && Distinct(spare) && Apart(used, spare)
    && |used| + |spare| == cap
    && (forall i :: 0 <= i < |used| ==> used[i] < cap)
    && (forall i :: 0 <= i < |spare| ==> spare[i] < cap)
  }

  ghost function WithNext(links: seq<Link>, i: nat, v: nat): (r: seq<Link>)
    ensures |r| == |links|
    ensures forall j {:trigger r[j]} :: 0 <= j < |r| ==> r[j] == if j == i then links[j].(next := v) else links[j]
  {
    seq(|links|, j requires 0 <= j < |links| => if j == i then links[j].(next := v) else links[j])
  }

  ghost function WithPrev(links: seq<Link>, i: nat, v: nat): (r: seq<Link>)
    ensures |r| == |links|
    ensures forall j {:trigger r[j]} :: 0 <= j < |r| ==> r[j] == if j == i then links[j].(prev := v) else links[j]
  {
    seq(|links|, j requires 0 <= j < |links| => if j == i then links[j].(prev := v) else links[j])
  }

  /** `links` with slot `s` linked in between slots `p` and `n`, either of which may be null. */
  ghost function Spliced(links: seq<Link>, p: nat, s: nat, n: nat): seq<Link>
    requires s < |links|
  {
    WithPrev(WithNext(links[s := Link(p, n)], p, s), n, s)
  }

  /** `links` with the slot between `p` and `n` bypassed. */
  ghost function Bypassed(links: seq<Link>, p: nat, n: nat): seq<Link>
  {
    WithPrev(WithNext(links, p, n), n, p)
  }

  /** First and last slot of a list, null for the empty list. */
  ghost function First(s: seq<nat>): nat { if s == [] then NPOS else s[0] }

  ghost function Last(s: seq<nat>): nat { if s == [] then NPOS else s[|s| - 1] }

  /** The slot before and the slot at position `k`, null beyond the ends. */
  ghost function Left(s: seq<nat>, k: nat): nat
    requires k <= |s|
  {
    if k == 0 then NPOS else s[k - 1]
  }

  ghost function Right(s: seq<nat>, k: nat): nat
    requires k <= |s|
  {
    if k == |s| then NPOS else s[k]
  }

  lemma DistinctInsert(s: seq<nat>, k: nat, x: nat)
    requires k <= |s| && Distinct(s) && x !in s
    ensures Distinct(InsertAt(s, k, x))
  {
    var u := InsertAt(s, k, x);
    forall i, j | 0 <= i < j < |u|
      ensures Differ(u, i, j)
    {
      if i != k && j != k {
        assert Differ(s, if i < k then i else i - 1, if j < k then j else j - 1);
      }
    }
  }

  lemma DistinctRemove(s: seq<nat>, k: nat)
    requires k < |s| && Distinct(s)
    ensures Distinct(RemoveAt(s, k)) && s[k] !in RemoveAt(s, k)
  {
    var u := RemoveAt(s, k);
    Alone(s, k);
    forall i, j | 0 <= i < j < |u|
      ensures Differ(u, i, j)
    {
      assert Differ(s, if i < k then i else i + 1, if j < k then j else j + 1);
    }
  }

  lemma SpliceEnds(links: seq<Link>, used: seq<nat>, k: nat, s: nat)
    requires k <= |used| && Threaded(links, used) && |links| <= NPOS
    ensures First(InsertAt(used, k, s)) == if Left(used, k) == NPOS then s else First(used)
    ensures Last(InsertAt(used, k, s)) == if Right(used, k) == NPOS then s else Last(used)
    ensures used != [] ==> First(used) < |links| && Last(used) < |links|
    ensures Right(used, k) != NPOS ==> Right(used, k) < |links|
  {
    hide Threaded, InsertAt;
    if used != [] {
      SlotStored(links, used, 0);
      SlotStored(links, used, |used| - 1);
    }
    if k > 0 { SlotStored(links, used, k - 1); }
    if k < |used| { SlotStored(links, used, k); }
  }

  lemma SlotStored(links: seq<Link>, used: seq<nat>, i: nat)
    requires Threaded(links, used) && i < |used|
    ensures used[i] < |links| && links[used[i]] == Link(PrevIn(used, i), NextIn(used, i))
  {
    assert Strung(links, used, i);
  }

  /** What linking `s` in between `p` and `n` does to a slot `t`. */
  lemma SplicedAt(links: seq<Link>, p: nat, s: nat, n: nat, t: nat)
    requires s < |links| <= NPOS && t < |links| && p != s && n != s
    requires (p < |links| || p == NPOS) && (n < |links| || n == NPOS)
    ensures |Spliced(links, p, s, n)| == |links|
    ensures Spliced(links, p, s, n)[t] ==
      if t == s then Link(p, n)
      else Link(if t == n then s else links[t].prev, if t == p then s else links[t].next)
  {
  }

  lemma BypassEnds(links: seq<Link>, used: seq<nat>, k: nat)
    requires k < |used| && Threaded(links, used) && |links| <= NPOS
    ensures First(RemoveAt(used, k)) == if PrevIn(used, k) == NPOS then NextIn(used, k) else First(used)
    ensures Last(RemoveAt(used, k)) == if NextIn(used, k) == NPOS then PrevIn(used, k) else Last(used)
    ensures PrevIn(used, k) != NPOS ==> PrevIn(used, k) < |links|
    ensures NextIn(used, k) != NPOS ==> NextIn(used, k) < |links|
  {
    hide Threaded;
    SlotStored(links, used, 0);
    SlotStored(links, used, |used| - 1);
    if k > 0 { SlotStored(links, used, k - 1); }
    if k + 1 < |used| { SlotStored(links, used, k + 1); }
  }

  /** Linking a new slot in at position `k` threads the list with that slot inserted. */
  lemma SpliceThreads(links: seq<Link>, used: seq<nat>, k: nat, s: nat)
    requires k <= |used| && Threaded(links, used) && Distinct(used) && s !in used && s < |links| <= NPOS
    ensures Threaded(Spliced(links, Left(used, k), s, Right(used, k)), InsertAt(used, k, s))
  {
    hide Threaded, Spliced, InsertAt;
    var u, after := InsertAt(used, k, s), Spliced(links, Left(used, k), s, Right(used, k));
    forall i | 0 <= i < |used| ensures used[i] < |links| { SlotStored(links, used, i); }
    SplicedAt(links, Left(used, k), s, Right(used, k), s);
    forall i | 0 <= i < |u|
      ensures Strung(after, u, i)
    {
      if i != k {
        var j := if i < k then i else i - 1;
        SlotStored(links, used, j);
        SplicedAt(links, Left(used, k), s, Right(used, k), used[j]);
        if k > 0 { Alone(used, k - 1); }
        if k < |used| { Alone(used, k); }
      }
    }
    ThreadedIf(after, u);
  }

  lemma ThreadedIf(links: seq<Link>, used: seq<nat>)
    requires forall i :: 0 <= i < |used| ==> Strung(links, used, i)
    ensures Threaded(links, used)
  {
  }

  /** Bypassing position `k` threads the list with that position removed. */
  lemma BypassThreads(links: seq<Link>, used: seq<nat>, k: nat)
    requires k < |used| && Threaded(links, used) && Distinct(used) && |links| <= NPOS
    ensures Threaded(Bypassed(links, PrevIn(used, k), NextIn(used, k)), RemoveAt(used, k))
  {
    var u := RemoveAt(used, k);
    var after := Bypassed(links, PrevIn(used, k), NextIn(used, k));
    Alone(used, k);
    if k > 0 { Alone(used, k - 1); }
    if k + 1 < |used| { Alone(used, k + 1); }
    forall i | 0 <= i < |u|
      ensures Strung(after, u, i)
    {
      SlotStored(links, used, if i < k then i else i + 1);
    }
  }

  /** A free list is not disturbed by splicing a slot outside it into the used list. */
  lemma SpliceKeepsFree(links: seq<Link>, used: seq<nat>, spare: seq<nat>, k: nat, s: nat)
    requires k <= |used| && s < |links| <= NPOS
    requires Threaded(links, used) && FreeListed(links, spare) && Apart(used, spare) && s !in spare
    ensures FreeListed(Spliced(links, Left(used, k), s, Right(used, k)), spare)
  {
    forall i | 0 <= i < |spare|
      ensures spare[i] != s && spare[i] != Left(used, k) && spare[i] != Right(used, k)
    {
      assert spare[i] in spare && spare[i] < |links|;
      assert NotBoth(spare[i], used, spare);
    }
  }

  /** Relinking a slot outside a list leaves the list alone. */
  lemma ThreadsOutside(links: seq<Link>, used: seq<nat>, s: nat, v: nat)
    requires Threaded(links, used) && s !in used
    ensures Threaded(WithNext(links, s, v), used)
  {
    forall i | 0 <= i < |used|
      ensures Strung(WithNext(links, s, v), used, i)
    {
      assert used[i] in used;
      SlotStored(links, used, i);
    }
  }

  lemma BypassKeepsFree(links: seq<Link>, used: seq<nat>, spare: seq<nat>, k: nat)
    requires k < |used| && |links| <= NPOS
    requires Threaded(links, used) && FreeListed(links, spare) && Apart(used, spare)
    ensures FreeListed(Bypassed(links, PrevIn(used, k), NextIn(used, k)), spare)
  {
    forall i | 0 <= i < |spare|
      ensures spare[i] != PrevIn(used, k) && spare[i] != NextIn(used, k)
    {
      assert spare[i] in spare && spare[i] < |links|;
      assert NotBoth(spare[i], used, spare);
    }
  }

  lemma FreeRest(links: seq<Link>, s: nat, rest: seq<nat>)
    requires FreeListed(links, [s] + rest)
    ensures s < |links| && FreeListed(links, rest)
    ensures links[s].next == First(rest)
  {
    var spare := [s] + rest;
    assert spare[0] == s;
    forall i | 0 <= i < |rest|
      ensures rest[i] < |links| && links[rest[i]].next == NextIn(rest, i)
    {
      assert spare[i + 1] == rest[i];
    }
  }

  /** Moving the first free slot to position `k` of the used list keeps the partition. */
  lemma TakeKeepsPartition(used: seq<nat>, s: nat, rest: seq<nat>, k: nat, cap: nat)
    requires Partitioned(used, [s] + rest, cap) && k <= |used|
    ensures s !in used && s !in rest && Apart(used, rest) && Distinct(used)
    ensures Partitioned(InsertAt(used, k, s), rest, cap)
  {
    var spare := [s] + rest;
    Alone(spare, 0);
    assert spare[0] == s;
    assert forall i :: 0 <= i < |rest| ==> rest[i] == spare[i + 1];
    assert s !in rest;
    assert s !in used by { assert NotBoth(s, used, spare); }
    forall i, j | 0 <= i < j < |rest|
      ensures Differ(rest, i, j)
    {
      assert Differ(spare, i + 1, j + 1);
    }
    InsertMembers(used, k, s);
    forall x
      ensures NotBoth(x, used, rest) && NotBoth(x, InsertAt(used, k, s), rest)
    {
      assert NotBoth(x, used, spare);
    }
    DistinctInsert(used, k, s);
  }

  /** Moving a used slot to the front of the free list keeps the partition. */
  lemma GiveKeepsPartition(used: seq<nat>, spare: seq<nat>, k: nat, cap: nat)
    requires Partitioned(used, spare, cap) && k < |used|
    ensures used[k] !in spare && used[k] !in RemoveAt(used, k) && Apart(used, spare) && Distinct(used)
    ensures Partitioned(RemoveAt(used, k), [used[k]] + spare, cap)
  {
    DistinctRemove(used, k);
    RemoveMembers(used, k);
    var more := [used[k]] + spare;
    assert used[k] in used && NotBoth(used[k], used, spare);
    forall i, j | 0 <= i < j < |more|
      ensures Differ(more, i, j)
    {
      if i > 0 { assert Differ(spare, i - 1, j - 1); } else { assert more[j] in spare; }
    }
    forall x
      ensures NotBoth(x, RemoveAt(used, k), more)
    {
      assert NotBoth(x, used, spare);
    }
  }

  /** A partition leaves no slot out: every slot is used or free, and not both. */
  lemma PartitionCovers(used: seq<nat>, spare: seq<nat>, cap: nat, s: nat)
    requires Partitioned(used, spare, cap) && s < cap
    ensures s in used <==> s !in spare
  {
    assert NotBoth(s, used, spare);
    if s !in used && s !in spare {
      var u, f := set x | x in used, set x | x in spare;
      DistinctCard(used, u);
      DistinctCard(spare, f);
      forall x ensures x !in u || x !in f { assert NotBoth(x, used, spare); }
      assert u !! f;
      assert u + f <= UpTo(cap) - {s};
      SubsetCard(u + f, UpTo(cap) - {s});
      assert false;
    }
  }

  ghost function UpTo(n: nat): (e: set<nat>)
    ensures |e| == n && forall x: nat :: x in e <==> x < n
  {
    if n == 0 then {} else UpTo(n - 1) + {n - 1}
  }

  lemma DistinctCard(s: seq<nat>, e: set<nat>)
    requires Distinct(s) && e == set x | x in s
    ensures |e| == |s|
  {
    if s != [] {
      var t := s[1..];
      forall i, j | 0 <= i < j < |t| ensures Differ(t, i, j) { assert Differ(s, i + 1, j + 1); }
      Alone(s, 0);
      DistinctCard(t, set x | x in t);
      assert e == (set x | x in t) + {s[0]};
    }
  }

  lemma SubsetCard(a: set<nat>, b: set<nat>)
    requires a <= b
    ensures |a| <= |b|
  {
    if a != {} {
      var x :| x in a;
      SubsetCard(a - {x}, b - {x});
    }
  }

  ghost function RowOf(n: PinNode, used: seq<nat>, slots: seq<Payload>): (r: seq<Item>)
    requires forall i :: 0 <= i < |used| ==> used[i] < |slots|
    ensures |r| == |used|
    ensures forall i {:trigger r[i]} :: 0 <= i < |r| ==> r[i] == Item(At(n, used[i]), slots[used[i]])
  {
    seq(|used|, i requires 0 <= i < |used| && used[i] < |slots| => Item(At(n, used[i]), slots[used[i]]))
  }

  lemma RowInsert(n: PinNode, used: seq<nat>, slots: seq<Payload>, k: nat, s: nat, p: Payload)
    requires k <= |used| && s < |slots| && s !in used
    requires forall i :: 0 <= i < |used| ==> used[i] < |slots|
    ensures forall i :: 0 <= i < |used| + 1 ==> InsertAt(used, k, s)[i] < |slots|
    ensures RowOf(n, InsertAt(used, k, s), slots[s := p]) == InsertAt(RowOf(n, used, slots), k, Item(At(n, s), p))
  {
    assert forall i :: 0 <= i < |used| ==> used[i] != s;
  }

  lemma RowRemove(n: PinNode, used: seq<nat>, slots: seq<Payload>, k: nat)
    requires k < |used|
    requires forall i :: 0 <= i < |used| ==> used[i] < |slots|
    ensures forall i :: 0 <= i < |used| - 1 ==> RemoveAt(used, k)[i] < |slots|
    ensures RowOf(n, RemoveAt(used, k), slots) == RemoveAt(RowOf(n, used, slots), k)
  {
  }

  class PinNode {
    const cap: nat
    const slots: array<Payload>
    const links: array<Link>
    var headSlot: nat
    var tailSlot: nat
    var free: nat
    var size: nat
    ghost var used: seq<nat>
    ghost var spare: seq<nat>

    ghost predicate Valid()
      reads this`headSlot, this`tailSlot, this`free, this`size, this`used, this`spare, slots, links
    {
      && 0 < cap < NPOS
      && slots.Length == cap && links.Length == cap
      && Partitioned(used, spare, cap)
      && Threaded(links[..], used)
      && FreeListed(links[..], spare)
      && headSlot == First(used)
      && tailSlot == Last(used)
      && free == First(spare)
      && size == |used|
    }

    /** The orders of the node in priority order, with their positions. */
    ghost function Row(): (r: seq<Item>)
      requires Valid()
      reads this`headSlot, this`tailSlot, this`free, this`size, this`used, this`spare, slots, links
      ensures |r| == |used|
    {
      RowOf(this, used, slots[..])
    }

    constructor (cap: nat)
      requires 0 < cap < NPOS
      ensures Valid() && fresh(slots) && fresh(links) && Row() == []
      ensures this.cap == cap && used == []
    {
      this.cap := cap;
      slots := new Payload[cap];
      links := new Link[cap](i => Link(NPOS, i + 1));
      headSlot, tailSlot, free, size := NPOS, NPOS, 0, 0;
      used := [];
      spare := seq(cap, i => i);
      new;
      links[cap - 1] := Link(NPOS, NPOS);
    }

    predicate Empty() reads this { size == 0 }

    predicate Full() reads this { size == cap }

    /** The used list alone: head, tail and the links of the slots in `used`. */
    ghost predicate Listed()
      reads this, links
    {
      && links.Length == cap && cap < NPOS
      && Distinct(used)
      && Threaded(links[..], used)
      && headSlot == First(used)
      && tailSlot == Last(used)
    }

    /** Takes the first free slot and stores `p` in it. */
    method Alloc(p: Payload) returns (s: nat)
      requires Valid() && !Full()
      modifies this`free, this`size, this`spare, slots
      ensures old(spare) == [s] + spare && s < cap
      ensures free == First(spare)
      ensures size == old(size) + 1 && FreeListed(links[..], spare)
      ensures slots[..] == old(slots[..])[s := p]
    {
      s := free;
      assert spare == [s] + spare[1..];
      FreeRest(links[..], s, spare[1..]);
      free := links[s].next;
      slots[s] := p;
      size := size + 1;
      spare := spare[1..];
    }

    method SetNext(i: nat, v: nat)
      requires i < links.Length
      modifies links
      ensures links[..] == WithNext(old(links[..]), i, v)
    {
      links[i] := links[i].(next := v);
    }

    method SetPrev(i: nat, v: nat)
      requires i < links.Length
      modifies links
      ensures links[..] == WithPrev(old(links[..]), i, v)
    {
      links[i] := links[i].(prev := v);
    }

    method LinkFront(s: nat)
      requires Listed() && s < cap && s !in used
      modifies this`headSlot, this`tailSlot, this`used, links
      ensures Listed() && used == InsertAt(old(used), 0, s)
      ensures links[..] == Spliced(old(links[..]), NPOS, s, old(headSlot))
    {
      SpliceThreads(links[..], used, 0, s);
      SpliceEnds(links[..], used, 0, s);
      DistinctInsert(used, 0, s);
      links[s] := Link(NPOS, headSlot);
      if headSlot == NPOS { tailSlot := s; } else { SetPrev(headSlot, s); }
      headSlot := s;
      used := InsertAt(used, 0, s);
      assert links[..] == Spliced(old(links[..]), NPOS, s, old(headSlot));
    }

    method LinkBack(s: nat)
      requires Listed() && s < cap && s !in used
      modifies this`headSlot, this`tailSlot, this`used, links
      ensures Listed() && used == InsertAt(old(used), |old(used)|, s)
      ensures links[..] == Spliced(old(links[..]), old(tailSlot), s, NPOS)
    {
      SpliceThreads(links[..], used, |used|, s);
      SpliceEnds(links[..], used, |used|, s);
      DistinctInsert(used, |used|, s);
      links[s] := Link(tailSlot, NPOS);
      if tailSlot == NPOS { headSlot := s; } else { SetNext(tailSlot, s); }
      tailSlot := s;
      used := InsertAt(used, |used|, s);
      assert links[..] == Spliced(old(links[..]), old(tailSlot), s, NPOS);
    }

    /** Splices `s` in just after position `k` of the list, which holds slot `ref`. */
    method SpliceAfter(ref: nat, s: nat, ghost k: nat)
      requires Listed() && s < cap && s !in used
      requires k < |used| && used[k] == ref
      modifies this`tailSlot, this`used, links
      ensures Listed() && used == InsertAt(old(used), k + 1, s)
      ensures links[..] == Spliced(old(links[..]), ref, s, Right(old(used), k + 1))
    {
      SlotStored(links[..], used, k);
      SpliceThreads(links[..], used, k + 1, s);
      SpliceEnds(links[..], used, k + 1, s);
      DistinctInsert(used, k + 1, s);
      var n := links[ref].next;
      assert n == Right(used, k + 1);
      links[s] := Link(ref, n);
      SetNext(ref, s);
      if n == NPOS { tailSlot := s; } else { SetPrev(n, s); }
      used := InsertAt(used, k + 1, s);
      assert links[..] == Spliced(old(links[..]), ref, s, Right(old(used), k + 1));
    }

    /** Unlinks position `k` of the list, which holds slot `s`. */
    method Unlink(s: nat, ghost k: nat)
      requires Listed() && k < |used| && used[k] == s
      modifies this`headSlot, this`tailSlot, this`used, links
      ensures Listed() && used == RemoveAt(old(used), k)
      ensures links[..] == Bypassed(old(links[..]), PrevIn(old(used), k), NextIn(old(used), k))
    {
      SlotStored(links[..], used, k);
      BypassThreads(links[..], used, k);
      BypassEnds(links[..], used, k);
      DistinctRemove(used, k);
      var p, n := links[s].prev, links[s].next;
      assert p == PrevIn(used, k) && n == NextIn(used, k);
      if p == NPOS { headSlot := n; } else { SetNext(p, n); }
      if n == NPOS { tailSlot := p; } else { SetPrev(n, p); }
      used := RemoveAt(used, k);
      assert links[..] == Bypassed(old(links[..]), PrevIn(old(used), k), NextIn(old(used), k));
    }

    /** Pushes the slot `s`, no longer used, onto the free list. */
    method FreeSlot(s: nat)
      requires 0 < size && s < cap == links.Length
      requires FreeListed(links[..], spare) && s !in spare && free == First(spare)
      modifies this`free, this`size, this`spare, links
      ensures links[..] == WithNext(old(links[..]), s, old(free))
      ensures FreeListed(links[..], spare)
      ensures spare == [s] + old(spare) && free == s && size == old(size) - 1
    {
      SetNext(s, free);
      free := s;
      size := size - 1;
      spare := [s] + spare;
    }

    /** Adds `p` as the last order of the node. */
    method Append(p: Payload) returns (s: nat)
      requires Valid() && !Full()
      modifies this`headSlot, this`tailSlot, this`free, this`size, this`used, this`spare, slots, links
      ensures Valid() && s < cap && s !in old(used)
      ensures used == InsertAt(old(used), |old(used)|, s)
      ensures slots[..] == old(slots[..])[s := p]
      ensures Row() == InsertAt(old(Row()), |old(used)|, Item(At(this, s), p))
    {
      s := Alloc(p);
      TakeKeepsPartition(used, s, spare, |used|, cap);
      RowInsert(this, used, old(slots[..]), |used|, s, p);
      SpliceKeepsFree(links[..], used, spare, |used|, s);
      LinkBack(s);
    }

    /** Adds `p` as the first order of the node. */
    method Prepend(p: Payload) returns (s: nat)
      requires Valid() && !Full()
      modifies this`headSlot, this`tailSlot, this`free, this`size, this`used, this`spare, slots, links
      ensures Valid() && s < cap && s !in old(used)
      ensures used == InsertAt(old(used), 0, s)
      ensures slots[..] == old(slots[..])[s := p]
      ensures Row() == InsertAt(old(Row()), 0, Item(At(this, s), p))
    {
      s := Alloc(p);
      TakeKeepsPartition(used, s, spare, 0, cap);
      RowInsert(this, used, old(slots[..]), 0, s, p);
      SpliceKeepsFree(links[..], used, spare, 0, s);
      LinkFront(s);
    }

    /** Adds `p` just after position `k`, which holds slot `ref`. */
    method InsertAfter(ref: nat, p: Payload, ghost k: nat) returns (s: nat)
      requires Valid() && !Full()
      requires k < |used| && used[k] == ref
      modifies this`headSlot, this`tailSlot, this`free, this`size, this`used, this`spare, slots, links
      ensures Valid() && s < cap && s !in old(used)
      ensures used == InsertAt(old(used), k + 1, s)
      ensures slots[..] == old(slots[..])[s := p]
      ensures Row() == InsertAt(old(Row()), k + 1, Item(At(this, s), p))
    {
      hide FreeListed, Threaded, Spliced, InsertAt, RowOf, Distinct, Apart;
      s := Alloc(p);
      TakeKeepsPartition(used, s, spare, k + 1, cap);
      RowInsert(this, used, old(slots[..]), k + 1, s, p);
      SpliceKeepsFree(links[..], used, spare, k + 1, s);
      SpliceAfter(ref, s, k);
    }

    /** Removes the order at position `k`, which holds slot `s`; no other order moves. */
    method Erase(s: nat, ghost k: nat)
      requires Valid() && k < |used| && used[k] == s
      modifies this`headSlot, this`tailSlot, this`free, this`size, this`used, this`spare, links
      ensures Valid() && used == RemoveAt(old(used), k)
      ensures Row() == RemoveAt(old(Row()), k) && spare == [s] + old(spare)
    {
      RowRemove(this, used, slots[..], k);
      GiveKeepsPartition(used, spare, k, cap);
      BypassKeepsFree(links[..], used, spare, k);
      Unlink(s, k);
      ThreadsOutside(links[..], used, s, free);
      FreeSlot(s);
    }

    /** Overwrites the order at position `k`, which holds slot `s`, in place. */
    method Put(s: nat, p: Payload, ghost k: nat)
      requires Valid() && k < |used| && used[k] == s
      modifies slots
      ensures Valid() && Row() == old(Row())[k := Item(At(this, s), p)]
    {
      Alone(used, k);
      slots[s] := p;
    }
  }
}
