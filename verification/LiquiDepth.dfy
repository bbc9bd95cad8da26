/**
  * Liquibook's depth: for each side a fixed window on the best price levels, kept in place in
  * one array, and a map of the levels that do not fit. Together they are one list of rows.
  */
module LiquiDepth {
  import opened Orders
  import opened Layout
  import opened LiquiRows

  /** Where a price is: a level of the array, or a level of the excess. */
  datatype Ref = InArray(index: nat) | InExcess(price: nat)

  class Depth {
    const size: nat
    const levels: array<DepthLevel>
    var lastChange: nat
    var excessBids: map<nat, DepthLevel>
    var excessAsks: map<nat, DepthLevel>
    ghost var bidRows: seq<Row>
    ghost var askRows: seq<Row>

    /** The window of a side: the first half of the array for bids, the second for asks. */
    ghost function Window(isBid: bool): (w: seq<DepthLevel>)
      requires levels.Length == 2 * size
      reads levels
      ensures |w| == size
    {
      Half(levels[..], size, isBid)
    }

    ghost function Excess(isBid: bool): map<nat, DepthLevel>
      reads this
    {
      if isBid then excessBids else excessAsks
    }

    ghost function Rows(isBid: bool): seq<Row>
      reads this
    {
      if isBid then bidRows else askRows
    }

    function Lo(isBid: bool): nat {
      if isBid then 0 else size
    }

    ghost predicate Valid()
      reads this, levels
    {
      && size > 0 && levels.Length == 2 * size
      && SideHolds(true, Window(true), excessBids, bidRows)
      && SideHolds(false, Window(false), excessAsks, askRows)
    }

    constructor (size: nat)
      requires size > 0
      ensures Valid() && fresh(levels) && bidRows == [] && askRows == [] && lastChange == 0 && this.size == size
      ensures forall i :: 0 <= i < levels.Length ==> levels[i] == DepthLevel(INVALID, 0, 0, false, 0)
    {
      this.size := size;
      levels := new DepthLevel[2 * size](_ => DepthLevel(INVALID, 0, 0, false, 0));
      lastChange, excessBids, excessAsks := 0, map[], map[];
      bidRows, askRows := [], [];
    }

    /** Puts a level for `price` at `k` of the window and shifts the rest down, the last one into the excess. */
    method InsertLevelBefore(k: nat, isBid: bool, price: nat)
      requires Valid() && k < size && k == Place(isBid, Rows(isBid), price) && k < |Rows(isBid)|
      requires price != INVALID && !HasRow(isBid, Rows(isBid), price)
      modifies this`lastChange, this`excessBids, this`excessAsks, this`bidRows, this`askRows, levels
      ensures Valid() && Rows(isBid) == InsertAt(old(Rows(isBid)), k, Row(price, 0, 0))
      ensures Rows(!isBid) == old(Rows(!isBid))
      ensures Window(!isBid) == old(Window(!isBid)) && lastChange == old(lastChange) + 1
      ensures forall j :: 0 <= j < size && j != k ==>
        Window(isBid)[j] == old(Window(isBid))[j] || Window(isBid)[j].stamp > old(lastChange)
    {
      hide Ranked, Shows, Overflow, Pushed, Saved, Window, InsertAt, HasRow, Place;
      ghost var w, m, rows, last := Window(isBid), Excess(isBid), Rows(isBid), lastChange;
      PushOverflows(isBid, w, m, rows, k, price);
      Inserted(isBid, rows, price);
      SaveLast(isBid);
      lastChange := lastChange + 1;
      ShiftDown(k, isBid, price);
      PushShows(w, rows, k, price, last + 1, Window(isBid));
      PushStamps(isBid, w, rows, k, price, last, Window(isBid));
      if isBid { bidRows := InsertAt(rows, k, Row(price, 0, 0)); }
        else { askRows := InsertAt(rows, k, Row(price, 0, 0)); }
    }

    /** Saves the last visible level in the excess if it is in use. */
    method SaveLast(isBid: bool)
      requires size > 0 && levels.Length == 2 * size
      modifies this`excessBids, this`excessAsks
      ensures Excess(isBid) == Saved(Window(isBid), old(Excess(isBid))) && Excess(!isBid) == old(Excess(!isBid))
    {
      var last := levels[Lo(isBid) + size - 1];
      if last.price != INVALID {
        var excessLevel := Copied(DepthLevel(0, 0, 0, true, 0), last);
        if isBid {
          if last.price !in excessBids { excessBids := excessBids[last.price := excessLevel]; }
        } else {
          if last.price !in excessAsks { excessAsks := excessAsks[last.price := excessLevel]; }
        }
      }
    }

    method ShiftDown(k: nat, isBid: bool, price: nat)
      requires size > 0 && levels.Length == 2 * size && k < size
      modifies levels
      ensures Window(!isBid) == old(Window(!isBid))
      ensures forall j :: 0 <= j < size ==> Window(isBid)[j] == Pushed(old(Window(isBid)), k, j, price, lastChange)
    {
      hide ShiftedFrom, Copied, Init;
      ghost var a := levels[..];
      var lo := Lo(isBid);
      StartShift(a, lo, size, lastChange);
      var current := lo + size - 1;
      while current > lo + k
        invariant lo + k <= current < lo + size && ShiftedFrom(a, levels[..], current, lo + size, lastChange)
      {
        current := current - 1;
        ghost var b := levels[..];
        levels[current + 1] := Copied(levels[current + 1], levels[current]);
        if levels[current].price != INVALID {
          levels[current + 1] := levels[current + 1].(stamp := lastChange);
        }
        ShiftStep(a, b, levels[..], current, lo + size, lastChange);
      }
      ghost var b := levels[..];
      levels[current] := Init(levels[current], price, false);
      ShiftedWindow(a, b, levels[..], isBid, size, k, price, lastChange);
    }

    /** Linear search of the window: where the price is, or where a level for it may go. */
    method Scan(price: nat, isBid: bool, shouldCreate: bool) returns (k: nat)
      requires Valid() && price != INVALID
      ensures k <= size
      ensures var rows := Rows(isBid); var p := Place(isBid, rows, price);
        k == if shouldCreate || HasRow(isBid, rows, price) then (if p < size then p else size) else size
    {
      hide Shows, Overflow, Place;
      PlaceSplits(isBid, Rows(isBid), price);
      k := 0;
      var lo := Lo(isBid);
      while k < size
        invariant k <= size && forall j :: 0 <= j < k && j < |Rows(isBid)| ==> Rows(isBid)[j].price != price
        invariant shouldCreate ==> k <= Place(isBid, Rows(isBid), price)
      {
        ShownAt(Window(isBid), Rows(isBid), k);
        var level := levels[lo + k];
        assert level == Window(isBid)[k];
        if level.price == price { return; }
        if shouldCreate && level.price == INVALID { return; }
        if shouldCreate && Better(isBid, price, level.price) { return; }
        k := k + 1;
      }
    }

    /**
      * The level of a price; made if asked for. A price that is nowhere yields the end of the
      * side's window, which for a bid is the first level of the asks.
      */
    method FindLevel(price: nat, isBid: bool, shouldCreate: bool) returns (r: Ref)
      requires Valid() && price != INVALID
      modifies this`lastChange, this`excessBids, this`excessAsks, this`bidRows, this`askRows, levels
      ensures Valid() && Rows(!isBid) == old(Rows(!isBid)) && Window(!isBid) == old(Window(!isBid))
      ensures Rows(isBid) == if shouldCreate then WithRow(isBid, old(Rows(isBid)), price) else old(Rows(isBid))
      ensures old(lastChange) <= lastChange <= old(lastChange) + 1
      ensures var p := Place(isBid, old(Rows(isBid)), price);
        && r == (if !shouldCreate && !HasRow(isBid, old(Rows(isBid)), price) then InArray(Lo(isBid) + size)
                 else if p < size then InArray(Lo(isBid) + p) else InExcess(price))
        && forall j :: 0 <= j < size && j != p ==>
             Window(isBid)[j] == old(Window(isBid))[j] || Window(isBid)[j].stamp > old(lastChange)
      ensures !shouldCreate ==> lastChange == old(lastChange) && levels[..] == old(levels[..])
      ensures !shouldCreate ==> excessBids == old(excessBids) && excessAsks == old(excessAsks)
    {
      hide Ranked, Shows, Overflow, Place, HasRow, InsertAt, Window;
      ghost var rows := Rows(isBid);
      WithRowRanked(isBid, rows, price);
      var k := Scan(price, isBid, shouldCreate);
      if k < size {
        Landing(isBid, Window(isBid), rows, k, price);
        var level := levels[Lo(isBid) + k];
        WindowAt(isBid, k);
        if shouldCreate && level.price != price {
          if level.price == INVALID {
            FillBlank(k, isBid, price);
          } else {
            InsertLevelBefore(k, isBid, price);
          }
        }
        r := InArray(Lo(isBid) + k);
      } else {
        r := FindExcess(price, isBid, shouldCreate);
      }
    }

    lemma WindowAt(isBid: bool, k: nat)
      requires levels.Length == 2 * size && k < size
      ensures Window(isBid)[k] == levels[Lo(isBid) + k]
    {
    }

    /** Sets up the first blank level of the window. */
    method FillBlank(k: nat, isBid: bool, price: nat)
      requires Valid() && k < size && k == Place(isBid, Rows(isBid), price) == |Rows(isBid)| && price != INVALID
      modifies this`bidRows, this`askRows, levels
      ensures Valid() && Rows(isBid) == InsertAt(old(Rows(isBid)), k, Row(price, 0, 0))
      ensures Rows(!isBid) == old(Rows(!isBid))
      ensures Window(!isBid) == old(Window(!isBid))
      ensures forall j :: 0 <= j < size && j != k ==> Window(isBid)[j] == old(Window(isBid))[j]
    {
      ghost var rows, w := Rows(isBid), Window(isBid);
      WithRowRanked(isBid, rows, price);
      BlankFilled(isBid, w, rows, Excess(isBid), k, price);
      hide Ranked, Shows, Overflow, Place, HasRow, InsertAt;
      levels[Lo(isBid) + k] := Init(levels[Lo(isBid) + k], price, false);
      assert Window(isBid) == w[k := Init(w[k], price, false)];
      assert Window(!isBid) == old(Window(!isBid));
      if isBid { bidRows := InsertAt(rows, k, Row(price, 0, 0)); }
        else { askRows := InsertAt(rows, k, Row(price, 0, 0)); }
    }

    /** The level of a price among those that do not fit in the window. */
    method FindExcess(price: nat, isBid: bool, shouldCreate: bool) returns (r: Ref)
      requires Valid() && price != INVALID
      requires shouldCreate || HasRow(isBid, Rows(isBid), price) ==> Place(isBid, Rows(isBid), price) >= size
      modifies this`excessBids, this`excessAsks, this`bidRows, this`askRows
      ensures Valid() && Rows(!isBid) == old(Rows(!isBid))
      ensures Rows(isBid) == if shouldCreate then WithRow(isBid, old(Rows(isBid)), price) else old(Rows(isBid))
      ensures r == if shouldCreate || HasRow(isBid, old(Rows(isBid)), price)
        then InExcess(price) else InArray(Lo(isBid) + size)
      ensures !shouldCreate ==> excessBids == old(excessBids) && excessAsks == old(excessAsks)
    {
      ghost var rows, w, m := Rows(isBid), Window(isBid), Excess(isBid);
      SpareKnown(isBid, w, m, rows, price);
      hide Ranked, Shows, Overflow, Place, HasRow, WithRow, InsertAt;
      var excess := if isBid then excessBids else excessAsks;
      if price in excess {
        r := InExcess(price);
      } else if shouldCreate {
        SpareMade(isBid, w, m, rows, price);
        var newLevel := DepthLevel(price, 0, 0, true, 0);
        if isBid { excessBids := excessBids[price := newLevel]; } else { excessAsks := excessAsks[price := newLevel]; }
        if isBid { bidRows := WithRow(isBid, rows, price); } else { askRows := WithRow(isBid, rows, price); }
        r := InExcess(price);
      } else {
        r := InArray(Lo(isBid) + size);
      }
    }

    /** Nothing shown on either side changed without a newer stamp. */
    twostate predicate Traced()
      requires levels.Length == 2 * size
      reads this, levels
    {
      && old(lastChange) <= lastChange
      && Stamped(old(Window(true)), Window(true), old(lastChange))
        && Stamped(old(Window(false)), Window(false), old(lastChange))
    }

    function Level(r: Ref, isBid: bool): DepthLevel
      requires r.InArray? ==> r.index < levels.Length
      requires r.InExcess? ==> r.price in if isBid then excessBids else excessAsks
      reads this, levels
    {
      match r
      case InArray(i) => levels[i]
      case InExcess(p) => if isBid then excessBids[p] else excessAsks[p]
    }

    /** Writes through a level reference. */
    method SetLevel(r: Ref, isBid: bool, l: DepthLevel)
      requires r.InArray? ==> r.index < levels.Length
      modifies this`excessBids, this`excessAsks, levels
      ensures r.InArray? ==>
        levels[..] == old(levels[..])[r.index := l] && excessBids == old(excessBids) && excessAsks == old(excessAsks)
      ensures r.InExcess? ==> levels[..] == old(levels[..]) && Excess(!isBid) == old(Excess(!isBid))
      ensures r.InExcess? ==> Excess(isBid) == old(Excess(isBid))[r.price := l]
    {
      match r
      case InArray(i) => levels[i] := l;
      case InExcess(p) => if isBid { excessBids := excessBids[p := l]; } else { excessAsks := excessAsks[p := l]; }
    }

    /** Where the row at position `p` of a side is kept. */
    ghost function RefOf(isBid: bool, p: nat): Ref
      requires p < |Rows(isBid)|
      reads this
    {
      if p < size then InArray(Lo(isBid) + p) else InExcess(Rows(isBid)[p].price)
    }

    /** The contents of all levels of the array. */
    ghost function Shown(): (c: seq<Row>)
      reads levels
      ensures |c| == levels.Length && forall i :: 0 <= i < |c| ==> c[i] == Content(levels[i])
    {
      seq(levels.Length, i requires 0 <= i < levels.Length reads levels => Content(levels[i]))
    }

    lemma Kept(isBid: bool, p: nat)
      requires Valid() && p < |Rows(isBid)|
      ensures var r := RefOf(isBid, p);
        && (r.InArray? ==> r.index < levels.Length)
          && (r.InExcess? ==> r.price in if isBid then excessBids else excessAsks)
        && Content(Level(r, isBid)) == Rows(isBid)[p] && (Level(r, isBid).excess <==> p >= size)
          && Rows(isBid)[p].qty < WORD
    {
      if p < size { ShownAt(Window(isBid), Rows(isBid), p); WindowAt(isBid, p); }
    }

    /** The level `l` may be written at `r`: for the row at position `p` of the side `on`, or for its first blank. */
    ghost predicate Writable(r: Ref, on: bool, p: nat, l: DepthLevel)
      reads this
    {
      l.qty < WORD &&
      if p < |Rows(on)| then r == RefOf(on, p) && l.price == Rows(on)[p].price && (l.excess <==> p >= size)
      else p == 0 && r == InArray(Lo(on)) && Content(l) == Blank(l, 0) && !l.excess
    }

    /** Rewrites the row at position `p` of the side `on`, keeping its price, or its first blank level. */
    method Rewrite(r: Ref, isBid: bool, l: DepthLevel, ghost on: bool, ghost p: nat)
      requires Valid() && Writable(r, on, p, l) && (on == isBid || r.InArray?)
      modifies this`excessBids, this`excessAsks, this`bidRows, this`askRows, levels
      ensures Valid() && Rows(on) == (if p < |old(Rows(on))| then old(Rows(on))[p := Content(l)] else old(Rows(on)))
      ensures Rows(!on) == old(Rows(!on)) && Window(!on) == old(Window(!on))
      ensures Window(on) == if p < size then old(Window(on))[p := l] else old(Window(on))
      ensures r.InArray? ==>
        r.index < levels.Length && levels[..] == old(levels[..])[r.index := l] && excessBids == old(excessBids)
          && excessAsks == old(excessAsks)
    {
      ghost var rows, w, m := Rows(on), Window(on), Excess(on);
      if p < |rows| { RowRewritten(on, w, m, rows, p, l); } else { BlankRewritten(on, w, m, l); }
      hide Ranked, Shows, Overflow;
      SetLevel(r, isBid, l);
      assert Window(on) == if p < size then w[p := l] else w;
      assert Window(!on) == old(Window(!on));
      if p < |rows| {
        if on { bidRows := rows[p := Content(l)]; } else { askRows := rows[p := Content(l)]; }
      }
    }

    /** One more order at a price. */
    method AddOrder(price: nat, qty: nat, isBid: bool)
      requires Valid() && price != INVALID
      modifies this, levels
      ensures Valid() && Rows(isBid) == Raised(isBid, old(Rows(isBid)), price, qty) && Rows(!isBid) == old(Rows(!isBid))
      ensures Traced()
    {
      hide Ranked, Shows, Overflow, Place, HasRow, WithRow;
      var lastChangeCopy := lastChange;
      ghost var p, rows := Place(isBid, Rows(isBid), price), Rows(isBid);
      ghost var w, v := Window(isBid), Window(!isBid);
      WithRowRanked(isBid, rows, price);
      RowIsThere(isBid, rows, price);
      var r := FindLevel(price, isBid, true);
      Kept(isBid, p);
      ghost var x := Window(isBid);
      var level := Level(r, isBid);
      level := level.(count := level.count + 1, qty := Wrap(level.qty + qty));
      if !level.excess {
        lastChange := lastChangeCopy + 1;
        level := level.(stamp := lastChangeCopy + 1);
      }
      Rewrite(r, isBid, level, isBid, p);
      AddStamps(w, x, Window(isBid), p, level, lastChangeCopy);
      assert Window(!isBid) == v;
      BothStamped(isBid, w, Window(isBid), v, lastChangeCopy);
    }

    /**
      * One order less at a price. If a bid price is nowhere the order is closed on the best ask.
      * A best ask of one order is left out here: erasing it as a bid breaks the window of the bids.
      */
    method CloseOrder(price: nat, qty: nat, isBid: bool) returns (c: Closing)
      requires Valid() && price != INVALID
      requires HasRow(isBid, Rows(isBid), price) || (isBid && (askRows == [] || askRows[0].count != 1))
      modifies this, levels
      ensures Valid() && (c != QtyTooLow ==> Traced())
      ensures HasRow(isBid, old(Rows(isBid)), price) ==> var p := Place(isBid, old(Rows(isBid)), price);
        && c == ClosingOf(old(Rows(isBid))[p], qty)
        && Rows(isBid) == Closed(old(Rows(isBid)), p, qty) && Rows(!isBid) == old(Rows(!isBid))
      ensures !HasRow(isBid, old(Rows(isBid)), price) && old(askRows) != [] ==>
        c == ClosingOf(old(askRows)[0], qty) && askRows == Closed(old(askRows), 0, qty) && bidRows == old(bidRows)
      ensures !HasRow(isBid, old(Rows(isBid)), price) && old(askRows) == [] ==>
        c == CountTooLow && bidRows == old(bidRows) && askRows == [] && levels[..] == old(levels[..])
    {
      hide Ranked, Shows, Overflow, Place, HasRow;
      ghost var hit := HasRow(isBid, Rows(isBid), price);
      ghost var on, p := if hit then isBid else false, if hit then Place(isBid, Rows(isBid), price) else 0;
      if hit { RowAt(isBid, Rows(isBid), price); }
      var r := FindLevel(price, isBid, false);
      if !hit && askRows == [] { FirstBlank(); } else { Kept(on, p); }
      var level := Level(r, isBid);
      if level.count == 0 {
        c := CountTooLow;
        NotStamped(Window(true), lastChange);
        NotStamped(Window(false), lastChange);
      } else {
        c := CloseAt(r, isBid, qty, on, p);
      }
    }

    /** The first level of the asks when there are none. */
    lemma FirstBlank()
      requires Valid() && askRows == []
      ensures levels[size].price == INVALID && levels[size].count == 0 && levels[size].qty < WORD
      ensures !levels[size].excess
      ensures Content(levels[size]) == Blank(levels[size], 0)
    {
      ShownAt(Window(false), askRows, 0);
      WindowAt(false, 0);
    }

    /** An order of the level `r`, which keeps the row at position `p` of the side `on`, is closed. */
    method CloseAt(r: Ref, isBid: bool, qty: nat, ghost on: bool, ghost p: nat) returns (c: Closing)
      requires Valid() && p < |Rows(on)| && r == RefOf(on, p) && (on == isBid || (r.InArray? && Rows(on)[p].count != 1))
      requires Rows(on)[p].count > 0
      modifies this, levels
      ensures Valid() && Rows(!on) == old(Rows(!on)) && (c != QtyTooLow ==> Traced())
      ensures c == ClosingOf(old(Rows(on))[p], qty) && Rows(on) == Closed(old(Rows(on)), p, qty)
    {
      hide Ranked, Shows, Overflow;
      ghost var w, v, last := Window(on), Window(!on), lastChange;
      Kept(on, p);
      var level := Level(r, isBid);
      if level.count == 1 {
        Rewrite(r, isBid, level.(count := 0, qty := 0), isBid, p);
        ghost var x := Window(isBid);
        EraseLevel(r, isBid, p);
        EmptiedStamps(w, x, Window(isBid), p, last);
        c := Erased;
        BothStamped(on, w, Window(on), v, last);
      } else if level.qty < qty {
        Rewrite(r, isBid, level.(count := level.count - 1), on, p);
        c := QtyTooLow;
      } else {
        lastChange := lastChange + 1;
        Rewrite(r, isBid, level.(count := level.count - 1, qty := level.qty - qty, stamp := lastChange), on, p);
        RewriteStamps(w, Window(on), p, level.(count := level.count - 1, qty := level.qty - qty, stamp := lastChange),
            last);
        c := Stays;
        BothStamped(on, w, Window(on), v, last);
      }
    }

    /** Removes the row at position `p`: from the excess, or from the window with the rest moving up. */
    method EraseLevel(r: Ref, isBid: bool, ghost p: nat)
      requires Valid() && p < |Rows(isBid)| && r == RefOf(isBid, p)
      modifies this, levels
      ensures Valid() && Rows(isBid) == RemoveAt(old(Rows(isBid)), p) && Rows(!isBid) == old(Rows(!isBid))
      ensures Window(!isBid) == old(Window(!isBid)) && lastChange >= old(lastChange)
      ensures if p < size then Stamped(old(Window(isBid)), Window(isBid), old(lastChange))
        && Window(isBid)[p].stamp > old(lastChange)
        else Window(isBid) == old(Window(isBid))
    {
      hide Ranked, Shows, Overflow, RemoveAt, Stamped, Erasing, BestSpare, Content;
      ghost var rows, w, m, last := Rows(isBid), Window(isBid), Excess(isBid), lastChange;
      Kept(isBid, p);
      Gone(isBid, rows, p);
      if Level(r, isBid).excess {
        SpareErased(isBid, w, m, rows, p);
        if isBid { excessBids := excessBids - {r.price}; } else { excessAsks := excessAsks - {r.price}; }
      } else {
        PullOverflows(isBid, w, m, rows, p);
        lastChange := lastChange + 1;
        ghost var best := PullUp(r.index - Lo(isBid), isBid, rows);
        PullShows(isBid, w, m, rows, p, best, lastChange, Window(isBid));
        PullStamps(w, rows, isBid, m, p, best, lastChange, Window(isBid), last);
        FirstStamped(w, p, best, lastChange, Window(isBid));
      }
      if isBid { bidRows := RemoveAt(rows, p); } else { askRows := RemoveAt(rows, p); }
    }

    /** Moves the levels below `k` up by one and refills the last one from the excess. */
    method PullUp(k: nat, isBid: bool, ghost rows: seq<Row>) returns (ghost best: Spare)
      requires size > 0 && levels.Length == 2 * size && k < size && k < |rows|
      requires SideHolds(isBid, Window(isBid), Excess(isBid), rows)
      requires size < |rows| ==> Window(isBid)[size - 1].price != INVALID && rows[size].price in Excess(isBid)
      modifies this`excessBids, this`excessAsks, levels
      ensures Window(!isBid) == old(Window(!isBid)) && Excess(!isBid) == old(Excess(!isBid))
      ensures BestSpare(old(Excess(isBid)), rows, size, best)
      ensures Erasing(old(Window(isBid)), k, best, lastChange, Window(isBid))
      ensures Excess(isBid) == if size < |rows| then old(Excess(isBid)) - {rows[size].price} else old(Excess(isBid))
    {
      ghost var w := Window(isBid);
      MoveUp(k, isBid);
      var lastLevel := Lo(isBid) + size - 1;
      best := if size < |rows| then Spare.Found(Excess(isBid)[rows[size].price]) else Missing;
      if k == size - 1 || levels[lastLevel].price != INVALID {
        RestoreLast(isBid, rows, w);
      }
    }

    method MoveUp(k: nat, isBid: bool)
      requires size > 0 && levels.Length == 2 * size && k < size
      modifies levels
      ensures Window(!isBid) == old(Window(!isBid))
      ensures Window(isBid)[size - 1] == old(Window(isBid))[size - 1]
      ensures forall j :: 0 <= j < size - 1 ==> Window(isBid)[j] == Pulled(old(Window(isBid)), k, j, lastChange)
    {
      hide MovedTo, Copied;
      ghost var a := levels[..];
      var lo := Lo(isBid);
      StartMove(a, lo + k, lastChange);
      var current := lo + k;
      while current < lo + size - 1
        invariant lo + k <= current <= lo + size - 1 && MovedTo(a, levels[..], lo + k, current, lastChange)
      {
        StillThere(a, levels[..], lo + k, current, lastChange);
        ghost var b := levels[..];
        if levels[current].price != INVALID || current == lo + k {
          levels[current] := Copied(levels[current], levels[current + 1]);
          levels[current] := levels[current].(stamp := lastChange);
        }
        MoveStep(a, b, levels[..], lo + k, current, lastChange);
        current := current + 1;
      }
      MovedWindow(a, levels[..], isBid, size, k, lastChange);
    }

    /** Takes the best level out of the excess. */
    method TakeSpare(isBid: bool, ghost rows: seq<Row>, ghost w: seq<DepthLevel>) returns (s: Spare)
      requires SideHolds(isBid, w, Excess(isBid), rows) && |w| == size
      modifies this`excessBids, this`excessAsks
      ensures Excess(!isBid) == old(Excess(!isBid)) && (size < |rows| ==> rows[size].price in old(Excess(isBid)))
      ensures s == if size < |rows| then Spare.Found(old(Excess(isBid))[rows[size].price]) else Missing
      ensures Excess(isBid) == if size < |rows| then old(Excess(isBid)) - {rows[size].price} else old(Excess(isBid))
    {
      hide Ranked, Shows, Overflow, IsBest, SideHolds;
      SpareBest(isBid, w, Excess(isBid), rows);
      var excess := if isBid then excessBids else excessAsks;
      s := Missing;
      if excess != map[] {
        var best: nat :| IsBest(isBid, excess, best);
        s := Spare.Found(excess[best]);
        if isBid { excessBids := excessBids - {best}; } else { excessAsks := excessAsks - {best}; }
      }
    }

    /** Refills the last level from the best of the excess, or blanks it. */
    method RestoreLast(isBid: bool, ghost rows: seq<Row>, ghost w: seq<DepthLevel>)
      requires size > 0 && levels.Length == 2 * size && |w| == size
      requires SideHolds(isBid, w, Excess(isBid), rows)
      modifies this`excessBids, this`excessAsks, levels
      ensures Window(!isBid) == old(Window(!isBid)) && Excess(!isBid) == old(Excess(!isBid))
      ensures size < |rows| ==> rows[size].price in old(Excess(isBid))
      ensures Window(isBid) == old(Window(isBid))[size - 1 :=
        if size < |rows|
          then Copied(old(Window(isBid))[size - 1], old(Excess(isBid))[rows[size].price]).(stamp := lastChange)
        else Init(old(Window(isBid))[size - 1], INVALID, false).(stamp := lastChange)]
      ensures Excess(isBid) == if size < |rows| then old(Excess(isBid)) - {rows[size].price} else old(Excess(isBid))
    {
      hide Ranked, Shows, Overflow, Copied, Init, Half;
      ghost var a := levels[..];
      var lastLevel := Lo(isBid) + size - 1;
      var spare := TakeSpare(isBid, rows, w);
      match spare {
        case Found(best) => levels[lastLevel] := Copied(levels[lastLevel], best);
        case Missing => levels[lastLevel] := Init(levels[lastLevel], INVALID, false);
      }
      levels[lastLevel] := levels[lastLevel].(stamp := lastChange);
      assert levels[..] == a[lastLevel := levels[lastLevel]];
      LastWritten(a, size, isBid, levels[lastLevel]);
    }

    /**
      * A change of the quantity at a price. If a bid price is nowhere, the first level of the asks
      * is changed in its stead: the best ask, or a blank level if there are no asks.
      */
    method ChangeQtyOrder(price: nat, delta: int, isBid: bool)
      requires Valid() && price != INVALID && 0 - WORD < delta < WORD && (HasRow(isBid, Rows(isBid), price) || isBid)
      modifies this, levels
      ensures Valid() && Traced()
      ensures HasRow(isBid, old(Rows(isBid)), price) ==>
        Rows(isBid) == Adjusted(old(Rows(isBid)), Place(isBid, old(Rows(isBid)), price), delta)
          && Rows(!isBid) == old(Rows(!isBid))
      ensures !HasRow(isBid, old(Rows(isBid)), price) ==>
        && excessBids == old(excessBids) && excessAsks == old(excessAsks)
        && bidRows == old(bidRows) && askRows == (if old(askRows) == [] then [] else Adjusted(old(askRows), 0, delta))
        && Shown() == old(Shown())[size := old(Shown())[size].(qty := Wrap(old(Shown())[size].qty + delta))]
      ensures !HasRow(isBid, old(Rows(isBid)), price) ==> (Shown() == old(Shown()) <==> delta == 0)
    {
      hide Ranked, Shows, Overflow, Place, HasRow, Stamped, Adjusted, Blank;
      ghost var hit := HasRow(isBid, Rows(isBid), price);
      ghost var on, p := if hit then isBid else false, if hit then Place(isBid, Rows(isBid), price) else 0;
      if hit { RowAt(isBid, Rows(isBid), price); }
      ghost var w, v, last := Window(on), Window(!on), lastChange;
      var r := FindLevel(price, isBid, false);
      if !hit && askRows == [] { FirstBlank(); } else { Kept(on, p); }
      var level := Level(r, isBid);
      ShiftStill(level.qty, delta);
      AdjustedAs(Rows(on), p, level, delta, lastChange + 1);
      if delta != 0 {
        lastChange := lastChange + 1;
        Rewrite(r, isBid, level.(qty := Wrap(level.qty + delta), stamp := lastChange), on, p);
        RewriteStamps(w, Window(on), p, level.(qty := Wrap(level.qty + delta), stamp := lastChange), last);
      } else {
        NotStamped(w, last);
      }
      BothStamped(on, w, Window(on), v, last);
    }

    /** An order of a side changes quantity, or price and quantity. */
    method ReplaceOrder(currentPrice: nat, newPrice: nat, currentQty: nat, newQty: nat, isBid: bool)
      returns (c: Closing)
      requires Valid() && currentPrice != INVALID && newPrice != INVALID && currentQty < WORD && newQty < WORD
      requires HasRow(isBid, Rows(isBid), currentPrice) ||
        (isBid && (currentPrice == newPrice || askRows == [] || askRows[0].count != 1))
      modifies this, levels
      ensures Valid() && (c != QtyTooLow ==> Traced())
      ensures currentPrice == newPrice ==> c == Stays
      ensures HasRow(isBid, old(Rows(isBid)), currentPrice) ==> Rows(!isBid) == old(Rows(!isBid))
      ensures HasRow(isBid, old(Rows(isBid)), currentPrice) && currentPrice == newPrice ==>
        Rows(isBid) == Adjusted(old(Rows(isBid)), Place(isBid, old(Rows(isBid)), currentPrice), newQty - currentQty)
      ensures HasRow(isBid, old(Rows(isBid)), currentPrice) && currentPrice != newPrice ==>
        var u := Raised(isBid, old(Rows(isBid)), newPrice, newQty); var p := Place(isBid, u, currentPrice);
        p < |u| && c == ClosingOf(u[p], currentQty) && Rows(isBid) == Closed(u, p, currentQty)
      ensures !HasRow(isBid, old(Rows(isBid)), currentPrice) && currentPrice == newPrice ==>
        bidRows == old(bidRows)
          && askRows == if old(askRows) == [] then [] else Adjusted(old(askRows), 0, newQty - currentQty)
      ensures !HasRow(isBid, old(Rows(isBid)), currentPrice) && currentPrice != newPrice ==>
        bidRows == Raised(true, old(bidRows), newPrice, newQty)
        && c == (if old(askRows) == [] then CountTooLow else ClosingOf(old(askRows)[0], currentQty))
        && askRows == (if old(askRows) == [] then [] else Closed(old(askRows), 0, currentQty))
    {
      hide Ranked, Shows, Overflow, Place, Closed, Raised, Adjusted, Stamped, HasRow, ClosingOf;
      ghost var rows, x, y, last := Rows(isBid), Window(true), Window(false), lastChange;
      if currentPrice == newPrice {
        ChangeQtyOrder(currentPrice, newQty - currentQty, isBid);
        c := Stays;
      } else {
        RaisedRow(isBid, rows, newPrice, newQty, currentPrice);
        AddOrder(newPrice, newQty, isBid);
        if HasRow(isBid, rows, currentPrice) { RowAt(isBid, Rows(isBid), currentPrice); }
        ghost var x', y', mid := Window(true), Window(false), lastChange;
        c := CloseOrder(currentPrice, currentQty, isBid);
        if c != QtyTooLow {
          StampedChain(x, x', Window(true), last, mid);
          StampedChain(y, y', Window(false), last, mid);
        }
      }
    }
  }

  /** A quantity changed by less than 2^32 either way is the same in 32 bits only if it is not changed. */
  lemma ShiftStill(q: nat, delta: int)
    requires q < WORD && 0 - WORD < delta < WORD
    ensures Wrap(q + delta) == q <==> delta == 0
  {
    if q + delta < 0 { assert Wrap(q + delta) == q + delta + WORD; }
    if q + delta >= WORD { assert Wrap(q + delta) == q + delta - WORD; }
  }

  /** What is written is the changed row, or a blank. */
  lemma AdjustedAs(rows: seq<Row>, p: nat, l: DepthLevel, delta: int, stamp: nat)
    ensures var n := l.(qty := Wrap(l.qty + delta), stamp := stamp);
      && n.qty < WORD && Content(n) == Content(l).(qty := Wrap(l.qty + delta))
      && (p < |rows| && Content(l) == rows[p] ==> rows[p := Content(n)] == Adjusted(rows, p, delta))
      && (Content(l) == Blank(l, 0) ==> Content(n) == Blank(n, 0))
      && (p < |rows| && rows[p].qty < WORD ==> Adjusted(rows, p, 0) == rows)
  {
  }

  /** A change at a bid price that is nowhere goes to the best ask. */
  method MissHitsBestAsk() returns (depth: Depth)
    ensures depth.bidRows == [] && depth.askRows == [Row(101, 1, 8)]
  {
    depth := new Depth(5);
    depth.AddOrder(101, 5, false);
    assert depth.askRows == [Row(101, 1, 5)];
    depth.ChangeQtyOrder(100, 3, true);
  }

  /** Without asks it goes to a level that is not in use. */
  method MissHitsBlank() returns (depth: Depth)
    ensures depth.Valid() && depth.bidRows == [] && depth.askRows == []
    ensures Content(depth.levels[depth.size]) == Row(INVALID, 0, 3)
  {
    depth := new Depth(5);
    assert depth.Shown()[5] == Row(INVALID, 0, 0);
    depth.ChangeQtyOrder(100, 3, true);
    assert depth.Shown()[5] == Row(INVALID, 0, 3);
  }
}
