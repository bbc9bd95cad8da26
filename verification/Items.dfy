/**
  * The rows of the chain read one after the other as one list, and what each elementary
  * change of a row does to that list.
  */
module Items {
  import opened Layout

  // ---- Rows of the chain, read one after the other ----

  ghost function Concat(rows: seq<seq<Item>>): seq<Item> {
    if rows == [] then [] else rows[0] + Concat(rows[1..])
  }

  ghost function Offset(rows: seq<seq<Item>>, i: nat): nat
    requires i <= |rows|
  {
    |Concat(rows[..i])|
  }

  lemma {:induction false} ConcatSplit(rows: seq<seq<Item>>, i: nat)
    requires i <= |rows|
    ensures Concat(rows) == Concat(rows[..i]) + Concat(rows[i..])
  {
    if i > 0 {
      ConcatSplit(rows[1..], i - 1);
      assert rows[1..][..i - 1] == rows[..i][1..];
      assert rows[1..][i - 1..] == rows[i..];
    }
  }

  lemma {:induction false} ConcatRow(rows: seq<seq<Item>>, i: nat)
    requires i < |rows|
    ensures Concat(rows) == Concat(rows[..i]) + rows[i] + Concat(rows[i + 1..])
  {
    ConcatSplit(rows, i);
    assert rows[i..][1..] == rows[i + 1..];
  }

  lemma ConcatUpdate(rows: seq<seq<Item>>, i: nat, r: seq<Item>)
    requires i < |rows|
    ensures Concat(rows[i := r]) == Concat(rows[..i]) + r + Concat(rows[i + 1..])
  {
    var u := rows[i := r];
    ConcatRow(u, i);
    assert u[..i] == rows[..i] && u[i + 1..] == rows[i + 1..];
  }

  /** Position `k` of the list is position `j` of row `i`. */
  lemma Locate(rows: seq<seq<Item>>, k: nat) returns (i: nat, j: nat)
    requires k < |Concat(rows)|
    ensures i < |rows| && j < |rows[i]| && k == Offset(rows, i) + j && Concat(rows)[k] == rows[i][j]
  {
    if k < |rows[0]| {
      i, j := 0, k;
    } else {
      i, j := Locate(rows[1..], k - |rows[0]|);
      assert rows[..i + 1][1..] == rows[1..][..i];
      i := i + 1;
    }
  }

  lemma {:induction false} ConcatAt(rows: seq<seq<Item>>, i: nat, j: nat)
    requires i < |rows| && j < |rows[i]|
    ensures Offset(rows, i) + j < |Concat(rows)| && Concat(rows)[Offset(rows, i) + j] == rows[i][j]
  {
    ConcatRow(rows, i);
  }

  /** Inserting into a row inserts into the list. */
  lemma {:induction false} ConcatInsert(rows: seq<seq<Item>>, i: nat, j: nat, x: Item)
    requires i < |rows| && j <= |rows[i]|
    ensures Offset(rows, i) + j <= |Concat(rows)|
    ensures Concat(rows[i := InsertAt(rows[i], j, x)]) == InsertAt(Concat(rows), Offset(rows, i) + j, x)
  {
    ConcatRow(rows, i);
    ConcatUpdate(rows, i, InsertAt(rows[i], j, x));
    InsertMiddle(Concat(rows[..i]), rows[i], Concat(rows[i + 1..]), j, x);
  }

  lemma InsertMiddle(a: seq<Item>, r: seq<Item>, b: seq<Item>, j: nat, x: Item)
    requires j <= |r|
    ensures a + InsertAt(r, j, x) + b == InsertAt(a + r + b, |a| + j, x)
  {
  }

  /** Removing from a row removes from the list. */
  lemma {:induction false} ConcatRemove(rows: seq<seq<Item>>, i: nat, j: nat)
    requires i < |rows| && j < |rows[i]|
    ensures Offset(rows, i) + j < |Concat(rows)|
    ensures Concat(rows[i := RemoveAt(rows[i], j)]) == RemoveAt(Concat(rows), Offset(rows, i) + j)
  {
    ConcatRow(rows, i);
    ConcatUpdate(rows, i, RemoveAt(rows[i], j));
    RemoveMiddle(Concat(rows[..i]), rows[i], Concat(rows[i + 1..]), j);
  }

  lemma RemoveMiddle(a: seq<Item>, r: seq<Item>, b: seq<Item>, j: nat)
    requires j < |r|
    ensures a + RemoveAt(r, j) + b == RemoveAt(a + r + b, |a| + j)
  {
  }

  lemma {:induction false} ConcatPut(rows: seq<seq<Item>>, i: nat, j: nat, x: Item)
    requires i < |rows| && j < |rows[i]|
    ensures Offset(rows, i) + j < |Concat(rows)|
    ensures Concat(rows[i := rows[i][j := x]]) == Concat(rows)[Offset(rows, i) + j := x]
  {
    ConcatRow(rows, i);
    ConcatUpdate(rows, i, rows[i][j := x]);
  }

  lemma {:induction false} ConcatNewRow(rows: seq<seq<Item>>, k: nat)
    requires k <= |rows|
    ensures Concat(InsertAt(rows, k, [])) == Concat(rows)
    ensures Offset(InsertAt(rows, k, []), k) == Offset(rows, k)
  {
    var u := InsertAt(rows, k, []);
    assert u[..k] == rows[..k] && u[k + 1..] == rows[k..] && u[k] == [];
    hide InsertAt, Concat;
    ConcatRow(u, k);
    ConcatSplit(rows, k);
    assert Concat(rows[..k]) + [] == Concat(rows[..k]);
  }

  lemma {:induction false} ConcatDropRow(rows: seq<seq<Item>>, k: nat)
    requires k < |rows| && rows[k] == []
    ensures Concat(RemoveAt(rows, k)) == Concat(rows)
  {
    var u := RemoveAt(rows, k);
    ConcatRow(rows, k);
    ConcatSplit(u, k);
    assert u[..k] == rows[..k] && u[k..] == rows[k + 1..];
  }

  /** Moving the last item of a row to the front of the next changes only its position. */
  lemma {:induction false} ConcatRelocate(rows: seq<seq<Item>>, i: nat, x: Item)
    requires i + 1 < |rows| && rows[i] != []
    ensures var j := |rows[i]| - 1;
      var moved := rows[i := RemoveAt(rows[i], j)][i + 1 := InsertAt(rows[i + 1], 0, x)];
      Offset(rows, i) + j < |Concat(rows)| && Concat(moved) == Concat(rows)[Offset(rows, i) + j := x]
  {
    var j := |rows[i]| - 1;
    var mid := rows[i := RemoveAt(rows[i], j)];
    ConcatRemove(rows, i, j);
    ConcatInsert(mid, i + 1, 0, x);
    OffsetNext(mid, i);
    assert mid[..i] == rows[..i];
    var c := Concat(rows);
    var k := Offset(rows, i) + j;
    assert InsertAt(RemoveAt(c, k), k, x) == c[k := x];
  }

  lemma OffsetNext(rows: seq<seq<Item>>, i: nat)
    requires i < |rows|
    ensures Offset(rows, i + 1) == Offset(rows, i) + |rows[i]|
  {
    ConcatRow(rows[..i + 1], i);
    assert rows[..i + 1][..i] == rows[..i];
    assert rows[..i + 1][i + 1..] == [];
  }

  lemma {:induction false} ConcatAll(rows: seq<seq<Item>>)
    ensures Offset(rows, |rows|) == |Concat(rows)|
  {
    assert rows[..|rows|] == rows;
  }
}
