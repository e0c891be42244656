/** What every table of the shop needs: optional columns, sums over a table, and
    the ascending listing behind an ORDER BY id. */
module Tables {

  datatype Option<+T> = None | Some(value: T)

  lemma EmptyIfNone(s: set<int>)
    ensures (forall x: int :: x !in s) ==> s == {}
  {
    if forall x: int :: x !in s {
      assert s == {};
    }
  }

  /** A nonempty set has a member that can be named. */
  lemma NonEmpty(s: set<int>)
    requires s != {}
    ensures exists x: int :: x in s
  {
    EmptyIfNone(s);
  }

  /** The sum of f over the rows of a table. */
  ghost function Total<V(!new)>(m: map<int, V>, f: V -> int): int
    decreases |m|
  {
    if m.Keys == {} then 0 else
      NonEmpty(m.Keys);
      var k: int :| k in m.Keys;
      f(m[k]) + Total(m - {k}, f)
  }

  lemma TakenOutEitherWay<V>(m: map<int, V>, j: int, k: int)
    ensures m - {j} - {k} == m - {k} - {j}
  {}

  /** Whichever row is taken out first, the sum is the same. */
  lemma {:induction false} TotalSplit<V(!new)>(m: map<int, V>, f: V -> int, k: int)
    requires k in m
    ensures Total(m, f) == f(m[k]) + Total(m - {k}, f)
    decreases |m|
  {
    var j: int :| j in m.Keys && Total(m, f) == f(m[j]) + Total(m - {j}, f);
    if j != k {
      TotalSplit(m - {j}, f, k);
      TotalSplit(m - {k}, f, j);
      TakenOutEitherWay(m, j, k);
    }
  }

  /** Writing row k moves the sum by the difference at k. */
  lemma TotalUpdate<V(!new)>(m: map<int, V>, f: V -> int, k: int, v: V)
    ensures Total(m[k := v], f) == Total(m, f) + f(v) - (if k in m then f(m[k]) else 0)
  {
    TotalSplit(m[k := v], f, k);
    assert m[k := v] - {k} == m - {k};
    if k in m {
      TotalSplit(m, f, k);
    } else {
      assert m - {k} == m;
    }
  }

  predicate Least(s: set<int>, x: int) {
    x in s && forall y :: y in s ==> x <= y
  }

  lemma LeastOf(s: set<int>, x: int, z: int)
    requires x in s && Least(s - {x}, z)
    ensures Least(s, if x <= z then x else z)
  {
    forall y | y in s ensures (if x <= z then x else z) <= y {
      assert y == x || y in s - {x};
    }
  }

  lemma {:induction false} LeastExists(s: set<int>)
    requires s != {}
    ensures exists x :: Least(s, x)
    decreases s
  {
    NonEmpty(s);
    var x: int :| x in s;
    if s - {x} == {} {
      assert s == {x};
      assert Least(s, x);
    } else {
      LeastExists(s - {x});
      var z: int :| Least(s - {x}, z);
      LeastOf(s, x, z);
    }
  }

  /** ORDER BY id: the members of s, each once, ascending. */
  function Ascending(s: set<int>): (r: seq<int>)
    ensures forall x :: x in r <==> x in s
    ensures forall i, j :: 0 <= i < j < |r| ==> r[i] < r[j]
    ensures |r| == |s|
    decreases s
  {
    if s == {} then [] else
      LeastExists(s);
      var x: int :| Least(s, x);
      var rest := Ascending(s - {x});
      AscendingCons(s, x, rest);
      [x] + rest
  }

  lemma AscendingCons(s: set<int>, x: int, rest: seq<int>)
    requires Least(s, x)
    requires forall y :: y in rest <==> y in s - {x}
    requires forall i, j :: 0 <= i < j < |rest| ==> rest[i] < rest[j]
    requires |rest| == |s - {x}|
    ensures var r := [x] + rest;
      && (forall y :: y in r <==> y in s)
      && (forall i, j :: 0 <= i < j < |r| ==> r[i] < r[j])
      && |r| == |s|
  {
    forall i | 0 <= i < |rest| ensures x < rest[i] {
      assert rest[i] in rest && rest[i] in s;
    }
  }

  predicate Ascends(s: seq<int>) {
    forall i, j :: 0 <= i < j < |s| ==> s[i] < s[j]
  }

  lemma NoMembers(s: seq<int>)
    ensures Members(s) == {} ==> s == []
  {
    if |s| > 0 {
      assert s[0] in Members(s);
    }
  }

  lemma LastIsGreatest(s: seq<int>)
    requires Ascends(s) && |s| > 0
    ensures s[|s| - 1] in Members(s) && forall z :: z in Members(s) ==> z <= s[|s| - 1]
    ensures Members(s[..|s| - 1]) == Members(s) - {s[|s| - 1]}
  {
    var init := s[..|s| - 1];
    assert s == init + [s[|s| - 1]];
    assert s[|s| - 1] !in init;
  }

  /** Two ascending listings of the same members are the same. */
  lemma {:induction false} SameListing(a: seq<int>, b: seq<int>)
    requires Ascends(a) && Ascends(b) && Members(a) == Members(b)
    ensures a == b
  {
    NoMembers(a);
    NoMembers(b);
    if |a| > 0 && |b| > 0 {
      LastIsGreatest(a);
      LastIsGreatest(b);
      SameListing(a[..|a| - 1], b[..|b| - 1]);
      assert a == a[..|a| - 1] + [a[|a| - 1]] && b == b[..|b| - 1] + [b[|b| - 1]];
    }
  }

  /** LIMIT n. */
  function Limit<T>(s: seq<T>, n: int): (r: seq<T>)
    ensures |r| == if n < 0 then 0 else if |s| <= n then |s| else n
    ensures forall i :: 0 <= i < |r| ==> r[i] == s[i]
  {
    if n < 0 then [] else if |s| <= n then s else s[..n]
  }

  /** The members of a listing. */
  function Members(s: seq<int>): (r: set<int>) {
    set x | x in s
  }

  lemma {:induction false} DistinctMembers(s: seq<int>)
    requires forall i, j :: 0 <= i < j < |s| ==> s[i] != s[j]
    ensures |Members(s)| == |s|
  {
    if |s| > 0 {
      DistinctMembers(s[1..]);
      assert Members(s) == {s[0]} + Members(s[1..]);
    }
  }

  function Min(a: int, b: int): int {
    if a < b then a else b
  }

  function Max(a: int, b: int): int {
    if a < b then b else a
  }

  lemma SubsetSize<T>(a: set<T>, b: set<T>)
    requires a <= b
    ensures |a| <= |b|
  {
    assert b == a + (b - a);
  }

  // ---- time ----

  const SECOND := 1_000_000_000

  /** In the order of a clock that has reached upto. */
  predicate InTime(times: seq<int>, upto: int) {
    && (forall i, j :: 0 <= i < j < |times| ==> times[i] <= times[j])
    && (forall i :: 0 <= i < |times| ==> times[i] <= upto)
  }
}
