/** Tables kept as rows in order of insertion. */
module Rows {
  import opened Wrappers

  function Filter<T(!new)>(rows: seq<T>, keep: T -> bool): (r: seq<T>)
    ensures forall p :: p in r <==> p in rows && keep(p)
  {
    if rows == [] then []
    else
      var n := |rows| - 1;
      assert rows == rows[..n] + [rows[n]];
      Filter(rows[..n], keep) + if keep(rows[n]) then [rows[n]] else []
  }

  function Find<T(!new)>(rows: seq<T>, wanted: T -> bool): (r: Option<T>)
    ensures r.Some? ==> r.value in rows && wanted(r.value)
    ensures r.None? ==> forall p :: p in rows ==> !wanted(p)
  {
    if rows == [] then None
    else if wanted(rows[|rows| - 1]) then Some(rows[|rows| - 1])
    else Find(rows[..|rows| - 1], wanted)
  }

  function Count<T>(rows: seq<T>, mine: T -> bool): nat {
    if rows == [] then 0
    else Count(rows[..|rows| - 1], mine) + if mine(rows[|rows| - 1]) then 1 else 0
  }

  /** All rows that are not `mine`, and the last `k` that are. */
  function KeepNewest<T(!new)>(rows: seq<T>, mine: T -> bool, k: nat): (r: seq<T>)
    ensures forall p :: p in r ==> p in rows
    ensures forall p :: p in rows && !mine(p) ==> p in r
  {
    if rows == [] then []
    else
      var n := |rows| - 1;
      assert rows == rows[..n] + [rows[n]];
      if !mine(rows[n]) then KeepNewest(rows[..n], mine, k) + [rows[n]]
      else if k > 0 then KeepNewest(rows[..n], mine, k - 1) + [rows[n]]
      else KeepNewest(rows[..n], mine, 0)
  }

  lemma CountPush<T>(rows: seq<T>, p: T, mine: T -> bool)
    ensures Count(rows + [p], mine) == Count(rows, mine) + if mine(p) then 1 else 0
  {
  }

  lemma {:induction false} CountFiltered<T(!new)>(rows: seq<T>, keep: T -> bool, mine: T -> bool)
    ensures Count(Filter(rows, keep), mine) <= Count(rows, mine)
  {
    if rows != [] {
      var n := |rows| - 1;
      CountFiltered(rows[..n], keep, mine);
      CountPush(Filter(rows[..n], keep), rows[n], mine);
      assert Filter(rows[..n], keep) + [] == Filter(rows[..n], keep);
    }
  }

  /** Trimming keeps exactly the newest `k` of its own rows and never adds to another count. */
  lemma {:induction false} CountTrimmed<T(!new)>(rows: seq<T>, mine: T -> bool, k: nat)
    ensures Count(KeepNewest(rows, mine, k), mine) == if Count(rows, mine) < k then Count(rows, mine) else k
  {
    if rows != [] {
      var n := |rows| - 1;
      var rest: nat := if !mine(rows[n]) || k == 0 then k else k - 1;
      CountTrimmed(rows[..n], mine, rest);
      CountPush(KeepNewest(rows[..n], mine, rest), rows[n], mine);
    }
  }

  lemma {:induction false} CountTrimmedOther<T(!new)>(rows: seq<T>, mine: T -> bool, k: nat, other: T -> bool)
    ensures Count(KeepNewest(rows, mine, k), other) <= Count(rows, other)
  {
    if rows != [] {
      var n := |rows| - 1;
      var rest: nat := if !mine(rows[n]) || k == 0 then k else k - 1;
      CountTrimmedOther(rows[..n], mine, rest, other);
      CountPush(KeepNewest(rows[..n], mine, rest), rows[n], other);
    }
  }
}
