/**
 * A database table as a sequence of rows, with the primary key given as a
 * function from a row to its (possibly absent) id. The SQL statements the
 * DAOs declare are stated with these operations: `WHERE` is `Where`, a lookup
 * by primary key is `Find`, an upsert is `Upsert`, `SUM` is `Sum`.
 */
module Table {
  import opened Nullable

  /** Every stored row has an id and no two rows share one. */
  ghost predicate Keyed<T>(rows: seq<T>, key: T -> Option<int>) {
    && (forall i :: 0 <= i < |rows| ==> key(rows[i]).Some?)
    && (forall i, j :: 0 <= i < j < |rows| ==> key(rows[i]) != key(rows[j]))
  }

  /** Every stored id is below `bound` (the next id AUTOINCREMENT hands out). */
  ghost predicate IdsBelow<T>(rows: seq<T>, key: T -> Option<int>, bound: int) {
    forall i :: 0 <= i < |rows| ==> key(rows[i]).Some? && key(rows[i]).value < bound
  }

  /** The position of the row whose primary key is `id`, if any. */
  function IndexOf<T>(rows: seq<T>, key: T -> Option<int>, id: int): (r: Option<nat>)
    ensures r.Some? ==> r.value < |rows| && key(rows[r.value]) == Some(id)
    ensures r.None? ==> forall i :: 0 <= i < |rows| ==> key(rows[i]) != Some(id)
  {
    if |rows| == 0 then None
    else if key(rows[0]) == Some(id) then Some(0)
    else
      match IndexOf(rows[1..], key, id)
      case Some(i) => Some(i + 1)
      case None => None
  }

  /** `SELECT * ... WHERE id = :id`: the row whose primary key is `id`, if any. */
  function Find<T>(rows: seq<T>, key: T -> Option<int>, id: int): (r: Option<T>)
    ensures r.Some? ==> r.value in rows && key(r.value) == Some(id)
    ensures r.None? ==> forall i :: 0 <= i < |rows| ==> key(rows[i]) != Some(id)
  {
    match IndexOf(rows, key, id)
    case Some(i) => Some(rows[i])
    case None => None
  }

  /** `SELECT * ... WHERE p`: the rows satisfying `p`, in table order. */
  function Where<T>(rows: seq<T>, p: T -> bool): (r: seq<T>)
    ensures forall i :: 0 <= i < |r| ==> r[i] in rows && p(r[i])
    ensures forall i :: 0 <= i < |rows| && p(rows[i]) ==> rows[i] in r
    ensures |r| <= |rows|
    ensures (forall i :: 0 <= i < |rows| ==> p(rows[i])) ==> r == rows
  {
    if |rows| == 0 then []
    else if p(rows[0]) then [rows[0]] + Where(rows[1..], p)
    else Where(rows[1..], p)
  }

  /** Room's upsert of a row that already carries its id: replace the row with that id, or append. */
  function Upsert<T>(rows: seq<T>, key: T -> Option<int>, row: T): (r: seq<T>)
    requires key(row).Some?
    ensures row in r
    ensures forall i :: 0 <= i < |r| ==> r[i] == row || r[i] in rows
    ensures forall i :: 0 <= i < |rows| && key(rows[i]) != key(row) ==> rows[i] in r
    ensures Find(rows, key, key(row).value).Some? ==> |r| == |rows|
    ensures Find(rows, key, key(row).value).None? ==> r == rows + [row]
  {
    match IndexOf(rows, key, key(row).value)
    case Some(i) =>
      var r := rows[i := row];
      assert r[i] == row;
      assert forall j :: 0 <= j < |rows| && j != i ==> r[j] == rows[j];
      r
    case None => rows + [row]
  }

  /** `SELECT SUM(f) ...`; Room reads the NULL of an empty table as 0. */
  function Sum<T>(rows: seq<T>, f: T -> int): int {
    if |rows| == 0 then 0 else f(rows[0]) + Sum(rows[1..], f)
  }

  /** With unique ids, `Find` returns the one row carrying the id. */
  lemma FindUnique<T>(rows: seq<T>, key: T -> Option<int>, x: T)
    requires Keyed(rows, key) && x in rows
    ensures Find(rows, key, key(x).value) == Some(x)
  {
    var i :| 0 <= i < |rows| && rows[i] == x;
  }

  lemma {:induction false} WhereKeyed<T>(rows: seq<T>, key: T -> Option<int>, p: T -> bool)
    requires Keyed(rows, key)
    ensures Keyed(Where(rows, p), key)
  {
    if |rows| > 0 {
      assert Keyed(rows[1..], key) by {
        forall i, j | 0 <= i < j < |rows[1..]| ensures key(rows[1..][i]) != key(rows[1..][j]) {
          assert rows[1..][i] == rows[i + 1] && rows[1..][j] == rows[j + 1];
        }
      }
      WhereKeyed(rows[1..], key, p);
      var w := Where(rows[1..], p);
      forall x | x in w ensures key(x) != key(rows[0]) {
        var k :| 0 <= k < |rows[1..]| && rows[1..][k] == x;
        assert rows[k + 1] == x;
      }
    }
  }

  /** Filtering keeps the rows whose id it does not touch: their lookups are unchanged. */
  lemma WhereFind<T>(rows: seq<T>, key: T -> Option<int>, p: T -> bool, id: int)
    requires Keyed(rows, key)
    requires forall i :: 0 <= i < |rows| && key(rows[i]) == Some(id) ==> p(rows[i])
    ensures Find(Where(rows, p), key, id) == Find(rows, key, id)
  {
    WhereKeyed(rows, key, p);
    var before := Find(rows, key, id);
    if before.Some? {
      FindUnique(Where(rows, p), key, before.value);
    }
  }

  /** Filtering twice by the same condition is filtering once. */
  lemma {:induction false} WhereIdempotent<T>(rows: seq<T>, p: T -> bool)
    ensures Where(Where(rows, p), p) == Where(rows, p)
  {
    if |rows| > 0 {
      WhereIdempotent(rows[1..], p);
      if p(rows[0]) {
        assert ([rows[0]] + Where(rows[1..], p))[1..] == Where(rows[1..], p);
      }
    }
  }

  /** The upserted row is found under its id. */
  lemma UpsertFind<T>(rows: seq<T>, key: T -> Option<int>, row: T)
    requires Keyed(rows, key) && key(row).Some?
    ensures Keyed(Upsert(rows, key, row), key)
    ensures Find(Upsert(rows, key, row), key, key(row).value) == Some(row)
  {
    UpsertKeyed(rows, key, row);
    FindUnique(Upsert(rows, key, row), key, row);
  }

  /** Upserting one id does not change what any other id finds. */
  lemma UpsertFindOther<T>(rows: seq<T>, key: T -> Option<int>, row: T, id: int)
    requires Keyed(rows, key) && key(row).Some? && key(row).value != id
    ensures Find(Upsert(rows, key, row), key, id) == Find(rows, key, id)
  {
    UpsertKeyed(rows, key, row);
    var r := Upsert(rows, key, row);
    var before := Find(rows, key, id);
    if before.Some? {
      FindUnique(r, key, before.value);
    }
  }

  lemma UpsertKeyed<T>(rows: seq<T>, key: T -> Option<int>, row: T)
    requires Keyed(rows, key) && key(row).Some?
    ensures Keyed(Upsert(rows, key, row), key)
  {
  }

  /** Appending a row adds its value to the sum. */
  lemma {:induction false} SumAppend<T>(rows: seq<T>, x: T, f: T -> int)
    ensures Sum(rows + [x], f) == Sum(rows, f) + f(x)
  {
    if |rows| > 0 {
      assert (rows + [x])[1..] == rows[1..] + [x];
      SumAppend(rows[1..], x, f);
    }
  }

  /** The sum over a table splits into the rows satisfying `p` and those satisfying its complement `q`. */
  lemma {:induction false} SumWhereSplit<T>(rows: seq<T>, p: T -> bool, q: T -> bool, f: T -> int)
    requires forall i :: 0 <= i < |rows| ==> q(rows[i]) == !p(rows[i])
    ensures Sum(Where(rows, p), f) + Sum(Where(rows, q), f) == Sum(rows, f)
  {
    if |rows| > 0 {
      SumWhereSplit(rows[1..], p, q, f);
    }
  }
}
