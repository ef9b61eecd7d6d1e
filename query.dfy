/** Row-level queries shared by the room store and the lobby: the two shapes a
    filtered SQL query takes in the store (`.filter(..).get_result()` reads the
    first matching row, `.filter(..).load()` reads all of them, in table order). */
module Query {

  datatype Option<+T> = None | Some(value: T)

  /** Position of the first row satisfying `p`, if any. */
  function FirstIndex<T>(rows: seq<T>, p: T -> bool): (r: Option<nat>)
    ensures r.Some? ==> r.value < |rows| && p(rows[r.value])
    ensures r.Some? ==> forall j :: 0 <= j < r.value ==> !p(rows[j])
    ensures r.None? <==> forall j :: 0 <= j < |rows| ==> !p(rows[j])
  {
    if rows == [] then None
    else if p(rows[0]) then Some(0)
    else match FirstIndex(rows[1..], p)
      case None => None
      case Some(i) => Some(i + 1)
  }

  /** The rows satisfying `p`, in their original order. */
  function Filter<T>(rows: seq<T>, p: T -> bool): (r: seq<T>)
    ensures |r| <= |rows|
    ensures forall i :: 0 <= i < |r| ==> r[i] in rows && p(r[i])
    ensures forall i :: 0 <= i < |rows| && p(rows[i]) ==> rows[i] in r
  {
    if rows == [] then []
    else
      var n := |rows| - 1;
      assert rows == rows[..n] + [rows[n]];
      Filter(rows[..n], p) + (if p(rows[n]) then [rows[n]] else [])
  }

  /** Appending one row adds it to the filtered rows exactly when it passes. */
  lemma FilterSnoc<T>(a: seq<T>, x: T, p: T -> bool)
    ensures Filter(a + [x], p) == Filter(a, p) + (if p(x) then [x] else [])
  {
    assert (a + [x])[..|a|] == a;
  }

  /** A filter that every row passes keeps the rows unchanged. */
  lemma {:induction false} FilterKeepsAll<T>(rows: seq<T>, p: T -> bool)
    requires forall x :: x in rows ==> p(x)
    ensures Filter(rows, p) == rows
    decreases |rows|
  {
    if rows != [] {
      var n := |rows| - 1;
      assert rows == rows[..n] + [rows[n]];
      FilterKeepsAll(rows[..n], p);
    }
  }

  /** The first row satisfying `p`, if any. */
  function First<T>(rows: seq<T>, p: T -> bool): (r: Option<T>)
    ensures r.Some? ==> r.value in rows && p(r.value)
    ensures r.None? <==> forall j :: 0 <= j < |rows| ==> !p(rows[j])
  {
    match FirstIndex(rows, p)
    case None => None
    case Some(i) => Some(rows[i])
  }

  /** Two tables whose rows agree on `p` row by row have their first
      `p`-row at the same position. */
  lemma FirstIndexAgrees<T>(a: seq<T>, b: seq<T>, p: T -> bool)
    requires |a| == |b|
    requires forall i :: 0 <= i < |a| ==> p(a[i]) == p(b[i])
    ensures FirstIndex(a, p) == FirstIndex(b, p)
  {
  }

  /** Appending a row changes the first match only when there was none. */
  lemma FirstSnoc<T>(a: seq<T>, x: T, p: T -> bool)
    ensures First(a + [x], p) == if First(a, p).Some? then First(a, p) else if p(x) then Some(x) else None
  {
    var b := a + [x];
    assert forall j :: 0 <= j < |a| ==> b[j] == a[j];
    if p(x) {
      assert b[|a|] == x;
    }
  }

  /** Removing only rows that fail `p` leaves the first `p`-row in place. */
  lemma {:induction false} FirstOfFilter<T>(rows: seq<T>, keep: T -> bool, p: T -> bool)
    requires forall i :: 0 <= i < |rows| && p(rows[i]) ==> keep(rows[i])
    ensures First(Filter(rows, keep), p) == First(rows, p)
    decreases |rows|
  {
    if rows != [] {
      var n := |rows| - 1;
      var front := rows[..n];
      assert rows == front + [rows[n]];
      var last := rows[n];
      var f := Filter(front, keep);
      assert Filter(rows, keep) == f + (if keep(last) then [last] else []);
      FirstOfFilter(front, keep, p);
      FirstSnoc(front, last, p);
      if keep(last) {
        FirstSnoc(f, last, p);
      } else {
        assert Filter(rows, keep) == f;
        assert !p(last);
      }
    }
  }

  /** No row passes a filter that no passing row survives. */
  lemma FilterNone<T>(rows: seq<T>, p: T -> bool)
    requires forall i :: 0 <= i < |rows| ==> !p(rows[i])
    ensures Filter(rows, p) == []
  {
  }

  function Not<T>(p: T -> bool): T -> bool {
    x => !p(x)
  }

  /** A filter and its negation split the rows between them. */
  lemma {:induction false} FilterPartition<T>(rows: seq<T>, p: T -> bool)
    ensures |Filter(rows, p)| + |Filter(rows, Not(p))| == |rows|
    decreases |rows|
  {
    if rows != [] {
      var n := |rows| - 1;
      FilterPartition(rows[..n], p);
    }
  }

  /** Membership in a filter, element by element. */
  lemma FilterMembership<T>(rows: seq<T>, p: T -> bool)
    ensures forall x :: x in Filter(rows, p) <==> x in rows && p(x)
  {
    var f := Filter(rows, p);
    forall x | x in rows && p(x) ensures x in f {
      var i :| 0 <= i < |rows| && rows[i] == x;
    }
  }
}
