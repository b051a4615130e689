/** Small shared vocabulary: optional values, and the `ORDER BY … LIMIT` query that the
    database answers for both the claim pass and the retention pass. */
module Prelude {

  datatype Option<+T> = None | Some(value: T)

  function Min(a: int, b: int): int {
    if a <= b then a else b
  }

  function Max(a: int, b: int): int {
    if a <= b then b else a
  }

  /** `n` times `x`, by addition. */
  function Times(n: nat, x: real): real {
    if n == 0 then 0.0 else Times(n - 1, x) + x
  }

  lemma {:induction false} TimesAdds(m: nat, n: nat, x: real)
    ensures Times(m + n, x) == Times(m, x) + Times(n, x)
  {
    if n > 0 {
      TimesAdds(m, n - 1, x);
    }
  }

  lemma {:induction false} TimesGrows(m: nat, n: nat, x: real)
    requires x > 0.0
    ensures m <= n <==> Times(m, x) <= Times(n, x)
  {
    if m <= n {
      TimesAdds(m, n - m, x);
      TimesPositive(n - m, x);
    } else {
      TimesAdds(n, m - n, x);
      TimesPositive(m - n, x);
    }
  }

  lemma {:induction false} TimesPositive(n: nat, x: real)
    requires x > 0.0
    ensures Times(n, x) >= 0.0 && (n > 0 ==> Times(n, x) > 0.0)
  {
    if n > 0 {
      TimesPositive(n - 1, x);
    }
  }

  lemma {:induction false} TimesIsProduct(n: nat, x: real)
    ensures Times(n, x) == n as real * x
  {
    if n > 0 {
      TimesIsProduct(n - 1, x);
    }
  }

  /** The elements of a sequence, as a set. */
  function Elems<T>(s: seq<T>): set<T> {
    set x | x in s
  }

  ghost predicate NoDuplicates<T(!new)>(s: seq<T>) {
    forall i, j :: 0 <= i < j < |s| ==> s[i] != s[j]
  }

  lemma {:induction false} ElemsCard<T(!new)>(s: seq<T>)
    requires NoDuplicates(s)
    ensures |Elems(s)| == |s|
  {
    if s == [] {
    } else {
      var init := s[..|s| - 1];
      ElemsCard(init);
      assert s == init + [s[|s| - 1]];
      assert Elems(s) == Elems(init) + {s[|s| - 1]};
    }
  }

  /** `rows` answers `SELECT … FROM cands ORDER BY key ASC LIMIT limit`; ties may come in any order. */
  ghost predicate IsOldestFirst<T(!new)>(rows: seq<T>, cands: set<T>, key: map<T, real>, limit: nat)
    requires cands <= key.Keys
  {
    && NoDuplicates(rows)
    && (forall x :: x in rows ==> x in cands)
    && |rows| == Min(limit, |cands|)
    && (forall i, j :: 0 <= i < j < |rows| ==> key[rows[i]] <= key[rows[j]])
    && (forall x, y :: x in rows && y in cands && y !in rows ==> key[x] <= key[y])
  }

  method PickOldest<T(==)>(cands: set<T>, key: map<T, real>) returns (oldest: T)
    requires cands != {} && cands <= key.Keys
    ensures oldest in cands && forall x :: x in cands ==> key[oldest] <= key[x]
  {
    oldest :| oldest in cands;
    var rest := cands - {oldest};
    while rest != {}
      invariant rest <= cands && oldest in cands
      invariant forall x :: x in cands - rest ==> key[oldest] <= key[x]
      decreases rest
    {
      var x :| x in rest;
      if key[x] < key[oldest] {
        oldest := x;
      }
      rest := rest - {x};
    }
  }

  /** The database's answer to an `ORDER BY key ASC LIMIT limit` query. */
  method OldestFirst<T(==,!new)>(cands: set<T>, key: map<T, real>, limit: nat) returns (rows: seq<T>)
    requires cands <= key.Keys
    ensures IsOldestFirst(rows, cands, key, limit)
  {
    rows := [];
    var rest := cands;
    while rest != {} && |rows| < limit
      invariant NoDuplicates(rows) && |rows| <= limit
      invariant rest <= cands && forall x :: x in rows <==> x in cands && x !in rest
      invariant |rows| + |rest| == |cands|
      invariant forall i, j :: 0 <= i < j < |rows| ==> key[rows[i]] <= key[rows[j]]
      invariant forall x, y :: x in rows && y in rest ==> key[x] <= key[y]
      decreases rest
    {
      var x := PickOldest(rest, key);
      assert x !in rows;
      rows, rest := rows + [x], rest - {x};
    }
  }
}
