/** Which waiting orders one background tick asks the wallet about, in what order, and
    when a waiting order is asked about, or starved. */
module PollSchedule {
  import opened Tables

  const LIMIT := 200
  const LIVE_SHARE := 160
  const LATE_SHARE := LIMIT - LIVE_SHARE

  // ---- selection ----

  /** A candidate row: its bucket and its place there, from 0. */
  datatype Item = Item(late: bool, rank: nat)

  /** How many rows of each bucket are listed, from the capped bucket counts. */
  function LiveTaken(live: nat, late: nat): int {
    Min(Min(live, LIMIT), Max(LIVE_SHARE, LIMIT - Min(Min(late, LIMIT), LATE_SHARE)))
  }

  function LateTaken(live: nat, late: nat): int {
    Min(Min(late, LIMIT), Max(LATE_SHARE, LIMIT - Min(Min(live, LIMIT), LIVE_SHARE)))
  }

  /** The sort key rank / share, scaled by LIVE_SHARE (a late rank counts LIVE_SHARE /
      LATE_SHARE = 4 times); ties go to the live bucket. */
  function SortKey(i: Item): int {
    if i.late then 4 * i.rank else i.rank
  }

  predicate Precedes(a: Item, b: Item) {
    || SortKey(a) < SortKey(b)
    || (SortKey(a) == SortKey(b) && !a.late && b.late)
    || (SortKey(a) == SortKey(b) && a.late == b.late && a.rank < b.rank)
  }

  /** The result of the query: exactly the rows taken, in the order of ORDER BY. */
  ghost predicate Listing(items: seq<Item>, live: nat, late: nat) {
    && Ordered(items)
    && (forall x :: x in items <==> x.rank < if x.late then LateTaken(live, late) else LiveTaken(live, late))
  }

  /** Merging the two buckets from places i and j on. */
  function Merge(i: nat, lives: nat, j: nat, lates: nat): (r: seq<Item>)
    requires i <= lives && j <= lates
    ensures |r| == lives - i + lates - j
    decreases lives - i + lates - j
  {
    if i < lives && (j == lates || SortKey(Item(false, i)) <= SortKey(Item(true, j))) then
      [Item(false, i)] + Merge(i + 1, lives, j, lates)
    else if j < lates then [Item(true, j)] + Merge(i, lives, j + 1, lates)
    else []
  }

  lemma {:induction false} MergeMembers(i: nat, lives: nat, j: nat, lates: nat)
    requires i <= lives && j <= lates
    ensures forall x :: x in Merge(i, lives, j, lates) <==> if x.late then j <= x.rank < lates else i <= x.rank < lives
    decreases lives - i + lates - j
  {
    if i < lives && (j == lates || SortKey(Item(false, i)) <= SortKey(Item(true, j))) {
      MergeMembers(i + 1, lives, j, lates);
    } else if j < lates {
      MergeMembers(i, lives, j + 1, lates);
    }
  }

  ghost predicate Ordered(items: seq<Item>) {
    forall i, j :: 0 <= i < j < |items| ==> Precedes(items[i], items[j])
  }

  lemma OrderedCons(x: Item, rest: seq<Item>)
    requires Ordered(rest) && forall y :: y in rest ==> Precedes(x, y)
    ensures Ordered([x] + rest)
  {
    var r := [x] + rest;
    forall i, j | 0 <= i < j < |r| ensures Precedes(r[i], r[j]) {
      assert r[j] == rest[j - 1] && rest[j - 1] in rest;
      assert i > 0 ==> r[i] == rest[i - 1];
    }
  }

  /** A live row goes out when it sorts before the next late one, and so before all of them. */
  lemma LiveFirst(i: nat, lives: nat, j: nat, lates: nat, y: Item)
    requires i < lives && j <= lates && (j == lates || SortKey(Item(false, i)) <= SortKey(Item(true, j)))
    requires if y.late then j <= y.rank < lates else i + 1 <= y.rank < lives
    ensures Precedes(Item(false, i), y)
  {}

  lemma LateFirst(i: nat, lives: nat, j: nat, lates: nat, y: Item)
    requires i <= lives && j < lates && (i == lives || SortKey(Item(true, j)) < SortKey(Item(false, i)))
    requires if y.late then j + 1 <= y.rank < lates else i <= y.rank < lives
    ensures Precedes(Item(true, j), y)
  {}

  lemma LiveThenOrdered(i: nat, lives: nat, j: nat, lates: nat)
    requires i < lives && j <= lates && (j == lates || SortKey(Item(false, i)) <= SortKey(Item(true, j)))
    requires Ordered(Merge(i + 1, lives, j, lates))
    ensures Ordered([Item(false, i)] + Merge(i + 1, lives, j, lates))
  {
    MergeMembers(i + 1, lives, j, lates);
    forall y | y in Merge(i + 1, lives, j, lates) ensures Precedes(Item(false, i), y) {
      LiveFirst(i, lives, j, lates, y);
    }
    OrderedCons(Item(false, i), Merge(i + 1, lives, j, lates));
  }

  lemma LateThenOrdered(i: nat, lives: nat, j: nat, lates: nat)
    requires i <= lives && j < lates && (i == lives || SortKey(Item(true, j)) < SortKey(Item(false, i)))
    requires Ordered(Merge(i, lives, j + 1, lates))
    ensures Ordered([Item(true, j)] + Merge(i, lives, j + 1, lates))
  {
    MergeMembers(i, lives, j + 1, lates);
    forall y | y in Merge(i, lives, j + 1, lates) ensures Precedes(Item(true, j), y) {
      LateFirst(i, lives, j, lates, y);
    }
    OrderedCons(Item(true, j), Merge(i, lives, j + 1, lates));
  }

  lemma {:induction false} MergeOrdered(i: nat, lives: nat, j: nat, lates: nat)
    requires i <= lives && j <= lates
    ensures Ordered(Merge(i, lives, j, lates))
    decreases lives - i + lates - j
  {
    if i < lives && (j == lates || SortKey(Item(false, i)) <= SortKey(Item(true, j))) {
      MergeOrdered(i + 1, lives, j, lates);
      LiveThenOrdered(i, lives, j, lates);
    } else if j < lates {
      MergeOrdered(i, lives, j + 1, lates);
      LateThenOrdered(i, lives, j, lates);
    }
  }

  /** WaitingSNs: the two buckets, each least recently polled first, as one list. */
  function WaitingItems(live: nat, late: nat): seq<Item> {
    Merge(0, LiveTaken(live, late), 0, LateTaken(live, late))
  }

  /** The rows as the order numbers they stand for. */
  function Named<T>(items: seq<Item>, live: seq<T>, late: seq<T>): (r: seq<T>)
    requires forall x :: x in items ==> x.rank < if x.late then |late| else |live|
    ensures |r| == |items|
  {
    seq(|items|, i requires 0 <= i < |items| =>
      assert items[i] in items;
      if items[i].late then late[items[i].rank] else live[items[i].rank])
  }

  /** The list is work-conserving: it is what the query asks for, its length is the limit
      or everything there is, and neither bucket loses its share to the other. */
  lemma WorkConserving(live: nat, late: nat)
    ensures Listing(WaitingItems(live, late), live, late)
    ensures |WaitingItems(live, late)| == Min(LIMIT, live + late)
    ensures LiveTaken(live, late) >= Min(live, LIVE_SHARE) && LateTaken(live, late) >= Min(late, LATE_SHARE)
  {
    MergeOrdered(0, LiveTaken(live, late), 0, LateTaken(live, late));
    MergeMembers(0, LiveTaken(live, late), 0, LateTaken(live, late));
  }

  /** No order is listed twice. */
  lemma NoDuplicates(live: seq<string>, late: seq<string>, i: nat, j: nat)
    requires forall a, b :: 0 <= a < b < |live| ==> live[a] != live[b]
    requires forall a, b :: 0 <= a < b < |late| ==> late[a] != late[b]
    requires forall a, b :: 0 <= a < |live| && 0 <= b < |late| ==> live[a] != late[b]
    requires i < j < |WaitingItems(|live|, |late|)|
    ensures var items := WaitingItems(|live|, |late|);
      && (forall x :: x in items ==> x.rank < if x.late then |late| else |live|)
      && Named(items, live, late)[i] != Named(items, live, late)[j]
  {
    var items := WaitingItems(|live|, |late|);
    WorkConserving(|live|, |late|);
    assert items[i] in items && items[j] in items;
    assert Precedes(items[i], items[j]);
  }

  function LateAmong(items: seq<Item>): nat {
    if |items| == 0 then 0 else LateAmong(items[..|items| - 1]) + if items[|items| - 1].late then 1 else 0
  }

  /** In a prefix of a listing the live rows are the first ones of their bucket, and so
      are the late ones: n rows with c late ones hold ranks 0..n-c-1 and 0..c-1. */
  lemma {:induction false} PrefixRanks(items: seq<Item>, live: nat, late: nat, n: nat)
    requires Listing(items, live, late) && n <= |items|
    ensures LateAmong(items[..n]) <= n
    ensures forall x :: x in items[..n] <==>
      x.rank < if x.late then LateAmong(items[..n]) else n - LateAmong(items[..n])
    ensures LateAmong(items[..n]) <= LateTaken(live, late) && n - LateAmong(items[..n]) <= LiveTaken(live, late)
  {
    if n > 0 {
      PrefixRanks(items, live, late, n - 1);
      var before, now := items[..n - 1], items[..n];
      assert now[..n - 1] == before && now == before + [items[n - 1]];
      NextRank(items, live, late, n);
    }
  }

  lemma InPrefix<T>(s: seq<T>, n: nat, j: nat)
    requires n <= |s| && j < |s|
    ensures j < n ==> s[j] in s[..n]
  {
    if j < n {
      assert s[..n][j] == s[j];
    }
  }

  lemma LaterInList(items: seq<Item>, n: nat, i: nat)
    requires Ordered(items) && n < |items| && i < |items|
    ensures n < i ==> Precedes(items[n], items[i])
  {}

  /** An ordered list has no row twice. */
  lemma NotBefore(items: seq<Item>, n: nat)
    requires Ordered(items) && n < |items|
    ensures items[n] !in items[..n]
  {
    forall i | 0 <= i < n ensures items[i] != items[n] {
      assert Precedes(items[i], items[n]);
    }
  }

  /** A row that precedes the n-th stands before it. */
  lemma PrecedingIsBefore(items: seq<Item>, n: nat, y: Item)
    requires Ordered(items) && n < |items| && y in items && Precedes(y, items[n])
    ensures y in items[..n]
  {
    var i :| 0 <= i < |items| && items[i] == y;
    LaterInList(items, n, i);
    InPrefix(items, n, i);
  }

  /** The row after a prefix is the next of its bucket. */
  lemma NextRank(items: seq<Item>, live: nat, late: nat, n: nat)
    requires Listing(items, live, late) && 0 < n <= |items|
    requires var c := LateAmong(items[..n - 1]);
      c <= n - 1 && forall x :: x in items[..n - 1] <==> x.rank < if x.late then c else n - 1 - c
    ensures var c := LateAmong(items[..n - 1]); items[n - 1].rank == if items[n - 1].late then c else n - 1 - c
  {
    var x, c := items[n - 1], LateAmong(items[..n - 1]);
    var bound: nat := if x.late then c else n - 1 - c;
    assert x in items;
    NotBefore(items, n - 1);
    if x.rank > bound {
      var y := Item(x.late, bound);
      assert y in items && Precedes(y, x);
      PrecedingIsBefore(items, n - 1, y);
    }
  }

  /** Every prefix of the list holds its fifth of late orders and its four fifths of live
      ones, as long as the bucket has any left. */
  lemma SharesOfPrefix(items: seq<Item>, live: nat, late: nat, n: nat)
    requires Listing(items, live, late) && n <= |items|
    ensures LateAmong(items[..n]) >= Min(LateTaken(live, late), (n + 3) / 5)
    ensures n - LateAmong(items[..n]) >= Min(LiveTaken(live, late), n - (n + 3) / 5)
  {
    PrefixRanks(items, live, late, n);
    var c := LateAmong(items[..n]);
    var nextLate, nextLive := Item(true, c), Item(false, n - c);
    if c < LateTaken(live, late) && n - c > 0 {
      assert nextLate in items && nextLate !in items[..n];
      InOrder(items, n, Item(false, n - c - 1), nextLate);
    }
    if n - c < LiveTaken(live, late) && c > 0 {
      assert nextLive in items && nextLive !in items[..n];
      InOrder(items, n, Item(true, c - 1), nextLive);
    }
  }

  /** What is not in a prefix comes after all of it. */
  lemma InOrder(items: seq<Item>, n: nat, x: Item, y: Item)
    requires Ordered(items) && n <= |items| && x in items[..n] && y in items && y !in items[..n]
    ensures Precedes(x, y)
  {
    var i :| 0 <= i < n && items[..n][i] == x;
    var j :| 0 <= j < |items| && items[j] == y;
    InPrefix(items, n, j);
  }

  // ---- rotation ----

  /** Stamps of the last poll of each order in one bucket; None has never been polled. */
  type Bucket = map<int, Option<int>>

  /** ORDER BY polled_at ASC NULLS FIRST, id ASC. */
  predicate Sooner(b: Bucket, x: int, y: int)
    requires x in b && y in b
  {
    match (b[x], b[y])
    case (None, None) => x < y
    case (None, Some(_)) => true
    case (Some(_), None) => false
    case (Some(s), Some(t)) => s < t || (s == t && x < y)
  }

  predicate Soonest(b: Bucket, s: set<int>, x: int)
    requires s <= b.Keys
  {
    x in s && forall y :: y in s && y != x ==> Sooner(b, x, y)
  }

  lemma SoonestOf(b: Bucket, s: set<int>, x: int, z: int)
    requires s <= b.Keys && x in s && Soonest(b, s - {x}, z)
    ensures Soonest(b, s, if Sooner(b, x, z) then x else z)
  {
    var w := if Sooner(b, x, z) then x else z;
    forall y | y in s && y != w ensures Sooner(b, w, y) {
      assert y == x || y in s - {x};
    }
  }

  lemma {:induction false} SoonestExists(b: Bucket, s: set<int>)
    requires s != {} && s <= b.Keys
    ensures exists x :: Soonest(b, s, x)
    decreases s
  {
    NonEmpty(s);
    var x: int :| x in s;
    if s - {x} == {} {
      assert s == {x};
      assert Soonest(b, s, x);
    } else {
      SoonestExists(b, s - {x});
      var z: int :| Soonest(b, s - {x}, z);
      SoonestOf(b, s, x, z);
    }
  }

  /** The bucket's members in polling order. */
  function Queue(b: Bucket, s: set<int>): seq<int>
    requires s <= b.Keys
    decreases s
  {
    if s == {} then [] else
      SoonestExists(b, s);
      var x: int :| Soonest(b, s, x);
      [x] + Queue(b, s - {x})
  }

  lemma {:induction false} QueueSorted(b: Bucket, s: set<int>)
    requires s <= b.Keys
    ensures var q := Queue(b, s);
      && (forall x :: x in q <==> x in s)
      && (forall i, j :: 0 <= i < j < |q| ==> q[i] in b && q[j] in b && Sooner(b, q[i], q[j]))
    decreases s
  {
    if s != {} {
      SoonestExists(b, s);
      var x: int :| Soonest(b, s, x) && Queue(b, s) == [x] + Queue(b, s - {x});
      QueueSorted(b, s - {x});
      QueueCons(b, s, x, Queue(b, s - {x}));
    }
  }

  lemma QueueCons(b: Bucket, s: set<int>, x: int, rest: seq<int>)
    requires s <= b.Keys && Soonest(b, s, x)
    requires forall y :: y in rest <==> y in s - {x}
    requires forall i, j :: 0 <= i < j < |rest| ==> rest[i] in b && rest[j] in b && Sooner(b, rest[i], rest[j])
    ensures var q := [x] + rest;
      && (forall y :: y in q <==> y in s)
      && (forall i, j :: 0 <= i < j < |q| ==> q[i] in b && q[j] in b && Sooner(b, q[i], q[j]))
  {
    forall i | 0 <= i < |rest| ensures rest[i] in b && Sooner(b, x, rest[i]) {
      var y := rest[i];
      assert y in rest;
      assert y in s - {x};
    }
  }

  /** The members polled before x. */
  function Ahead(b: Bucket, x: int): set<int>
    requires x in b
  {
    set y | y in b && Sooner(b, y, x)
  }

  /** The first p members of the bucket. */
  function Head(b: Bucket, p: nat): set<int> {
    var q := Queue(b, b.Keys);
    Members(q[..Min(p, |q|)])
  }

  /** The k-th of a queue is among its first p exactly when k < p. */
  lemma AmongFirst(b: Bucket, q: seq<int>, k: nat, p: nat)
    requires Sorted(b, q) && k < |q|
    ensures q[k] in Members(q[..Min(p, |q|)]) <==> k < p
    ensures k >= p ==> Members(q[..p]) <= Members(q[..k])
  {
    if k < p {
      assert q[..Min(p, |q|)][k] == q[k];
    } else {
      LaterIsNotFirst(b, q, p, k);
      assert q[..k][..p] == q[..p];
    }
  }

  /** x is in the head exactly when fewer than p members are polled before it. */
  lemma HeadExactly(b: Bucket, x: int, p: nat)
    requires x in b
    ensures x in Head(b, p) <==> |Ahead(b, x)| < p
    ensures x !in Head(b, p) ==> Head(b, p) <= Ahead(b, x) && |Head(b, p)| == p
  {
    var q := Queue(b, b.Keys);
    QueueSorted(b, b.Keys);
    assert Sorted(b, q);
    var k := PlaceOf(q, x);
    AheadAreFirst(b, q, k);
    FirstAreDistinct(b, q, k);
    AmongFirst(b, q, k, p);
    if k >= p {
      FirstAreDistinct(b, q, p);
    }
  }

  lemma PlaceOf(q: seq<int>, x: int) returns (k: nat)
    requires x in q
    ensures k < |q| && q[k] == x
  {
    k :| k < |q| && q[k] == x;
  }

  ghost predicate Sorted(b: Bucket, q: seq<int>) {
    && (forall y :: y in q <==> y in b)
    && (forall i, j :: 0 <= i < j < |q| ==> q[i] in b && q[j] in b && Sooner(b, q[i], q[j]))
  }

  lemma AheadAreFirst(b: Bucket, q: seq<int>, k: nat)
    requires Sorted(b, q) && k < |q| && q[k] in b
    ensures Ahead(b, q[k]) == Members(q[..k])
  {
    forall y ensures y in Ahead(b, q[k]) <==> y in q[..k] {
      if y in Ahead(b, q[k]) {
        var i :| 0 <= i < |q| && q[i] == y;
        assert i > k ==> Sooner(b, q[k], q[i]);
        assert q[..k][i] == y;
      }
      if y in q[..k] {
        var i :| 0 <= i < k && q[..k][i] == y;
        assert Sooner(b, q[i], q[k]);
      }
    }
  }

  lemma FirstAreDistinct(b: Bucket, q: seq<int>, k: nat)
    requires Sorted(b, q) && k <= |q|
    ensures |Members(q[..k])| == k
  {
    forall i, j | 0 <= i < j < k ensures q[..k][i] != q[..k][j] {
      assert Sooner(b, q[i], q[j]);
    }
    DistinctMembers(q[..k]);
  }

  lemma LaterIsNotFirst(b: Bucket, q: seq<int>, p: nat, k: nat)
    requires Sorted(b, q) && p <= k < |q|
    ensures q[k] !in q[..p]
  {
    forall i | 0 <= i < p ensures q[..p][i] != q[k] {
      assert Sooner(b, q[i], q[k]);
    }
  }

  // ---- what one tick does to a bucket ----

  /** No stamp goes backwards, and only what was stamped has a new one. Orders may leave
      the bucket, and others may join it with any stamp or none. */
  ghost predicate Moves(b: Bucket, b': Bucket, stamped: set<int>) {
    forall y :: y in b && y in b' ==>
      if y in stamped then b'[y].Some? && (b[y].Some? ==> b[y].value <= b'[y].value) else b'[y] == b[y]
  }

  /** A tick asks about the head of the bucket and perhaps about others; a stamp is only
      written for what was asked about, but an answer from the cache writes none. */
  ghost predicate Tick(b: Bucket, b': Bucket, asked: set<int>, stamped: set<int>, p: nat) {
    Moves(b, b', stamped) && Head(b, p) <= asked && stamped <= asked
  }

  /** Those that come before x after a tick although they did not have to: they have just
      joined, or the tick asked about them and they still come first. */
  function Held(b: Bucket, b': Bucket, p: nat, x: int): set<int>
    requires x in b'
  {
    set y | y in b' && Sooner(b', y, x) && (y !in b || y in Head(b, p))
  }

  /** Who was not before x before a tick, and has not joined, is not before it after. */
  lemma NobodyOvertakes(b: Bucket, b': Bucket, stamped: set<int>, x: int, y: int)
    requires Moves(b, b', stamped) && x in b && x in b' && x !in stamped
    requires y in b && y in b' && Sooner(b', y, x)
    ensures Sooner(b, y, x)
  {}

  /** Each tick that passes an order by takes the p of the head away from those before it,
      but for the ones that held their place, and adds the ones that joined before it. */
  lemma TickAdvances(b: Bucket, b': Bucket, asked: set<int>, stamped: set<int>, p: nat, x: int)
    requires Tick(b, b', asked, stamped, p) && x in b && x in b' && x !in asked
    ensures |Ahead(b', x)| + p <= |Ahead(b, x)| + |Held(b, b', p, x)|
  {
    HeadExactly(b, x, p);
    var rest := Ahead(b, x) - Head(b, p);
    forall y | y in Ahead(b', x) ensures y in rest + Held(b, b', p, x) {
      if y in b {
        NobodyOvertakes(b, b', stamped, x, y);
      }
    }
    SubsetSize(Ahead(b', x), rest + Held(b, b', p, x));
    assert Ahead(b, x) == rest + Head(b, p);
  }

  // ---- runs of ticks ----

  /** buckets[i] before tick i, asked[i] and stamped[i] what happened until the next one. */
  ghost predicate Ticks(buckets: seq<Bucket>, asked: seq<set<int>>, stamped: seq<set<int>>, p: nat) {
    && |buckets| == |asked| + 1 && |stamped| == |asked|
    && forall i :: 0 <= i < |asked| ==> Tick(buckets[i], buckets[i + 1], asked[i], stamped[i], p)
  }

  /** x is in the bucket when a run starts and after each of its first k ticks. */
  ghost predicate Stays(buckets: seq<Bucket>, x: int, k: nat) {
    k < |buckets| && forall i :: 0 <= i <= k ==> x in buckets[i]
  }

  /** One of the first k ticks, or somebody else meanwhile, asks about x. */
  predicate PolledWithin(asked: seq<set<int>>, x: int, k: nat) {
    exists i :: 0 <= i < k && i < |asked| && x in asked[i]
  }

  /** What the first k ticks have to serve before x: who was before it at the start, and
      who joined or held a place before it since. */
  ghost function Debt(buckets: seq<Bucket>, p: nat, x: int, k: nat): nat
    requires Stays(buckets, x, k)
  {
    if k == 0 then |Ahead(buckets[0], x)|
    else Debt(buckets, p, x, k - 1) + |Held(buckets[k - 1], buckets[k], p, x)|
  }

  lemma PassedOnce(buckets: seq<Bucket>, asked: seq<set<int>>, stamped: seq<set<int>>, p: nat, x: int, i: nat)
    requires Ticks(buckets, asked, stamped, p) && i < |asked|
    requires x in buckets[i] && x in buckets[i + 1] && x !in asked[i]
    ensures |Ahead(buckets[i + 1], x)| + p <= |Ahead(buckets[i], x)| + |Held(buckets[i], buckets[i + 1], p, x)|
  {
    assert Tick(buckets[i], buckets[i + 1], asked[i], stamped[i], p);
    TickAdvances(buckets[i], buckets[i + 1], asked[i], stamped[i], p, x);
  }

  lemma OneMore(debt: int, before: int, held: int, now: int, p: nat, n: nat)
    requires before + p * n <= debt && now + p <= before + held
    ensures now + p * (n + 1) <= debt + held
  {
    assert p * (n + 1) == p * n + p;
  }

  lemma {:induction false} PassedBy(buckets: seq<Bucket>, asked: seq<set<int>>, stamped: seq<set<int>>,
                                    p: nat, x: int, k: nat)
    requires Ticks(buckets, asked, stamped, p) && Stays(buckets, x, k)
    requires forall i :: 0 <= i < k ==> x !in asked[i]
    ensures |Ahead(buckets[k], x)| + p * k <= Debt(buckets, p, x, k)
  {
    if k > 0 {
      var m := k - 1;
      PassedBy(buckets, asked, stamped, p, x, m);
      PassedOnce(buckets, asked, stamped, p, x, m);
      OneMore(Debt(buckets, p, x, m), |Ahead(buckets[m], x)|, |Held(buckets[m], buckets[m + 1], p, x)|,
              |Ahead(buckets[m + 1], x)|, p, m);
    }
  }

  lemma LastTick(ahead: nat, debt: nat, p: nat, k: nat)
    requires ahead + p * k <= debt < p * (k + 1)
    ensures ahead < p
  {
    assert p * (k + 1) == p * k + p;
  }

  /** An order is asked about within k + 1 ticks when these ticks, p at a time, have served
      everyone who was before it and everyone who joined or held a place before it in the
      first k of them. */
  lemma PolledInTime(buckets: seq<Bucket>, asked: seq<set<int>>, stamped: seq<set<int>>, p: nat, x: int, k: nat)
    requires Ticks(buckets, asked, stamped, p) && k < |asked| && Stays(buckets, x, k)
    requires Debt(buckets, p, x, k) < p * (k + 1)
    ensures PolledWithin(asked, x, k + 1)
  {
    if forall i :: 0 <= i < k ==> x !in asked[i] {
      PassedBy(buckets, asked, stamped, p, x, k);
      LastTick(|Ahead(buckets[k], x)|, Debt(buckets, p, x, k), p, k);
      HeadExactly(buckets[k], x, p);
      assert Tick(buckets[k], buckets[k + 1], asked[k], stamped[k], p);
      assert x in asked[k];
    }
  }

  // ---- when nobody joins ----

  /** Nobody joins or holds a place before x in the first k ticks. */
  ghost predicate Undisturbed(buckets: seq<Bucket>, p: nat, x: int, k: nat)
    requires Stays(buckets, x, k)
  {
    forall i :: 0 <= i < k ==> Held(buckets[i], buckets[i + 1], p, x) == {}
  }

  /** Nobody does when none joins and every one of the head is stamped later than any before. */
  lemma StampedLater(b: Bucket, b': Bucket, stamped: set<int>, p: nat, x: int)
    requires Moves(b, b', stamped) && b'.Keys <= b.Keys && Head(b, p) <= stamped && x in b' && x !in stamped
    requires forall y, z :: y in stamped && y in b' && z in b && b[z].Some? && b'[y].Some? ==> b[z].value < b'[y].value
    ensures Held(b, b', p, x) == {}
  {}

  lemma {:induction false} DebtUndisturbed(buckets: seq<Bucket>, p: nat, x: int, k: nat)
    requires Stays(buckets, x, k) && Undisturbed(buckets, p, x, k)
    ensures Debt(buckets, p, x, k) == |Ahead(buckets[0], x)|
  {
    if k > 0 {
      DebtUndisturbed(buckets, p, x, k - 1);
    }
  }

  lemma BeyondAll(k: nat, p: nat)
    requires p > 0
    ensures k < p * (k / p + 1)
  {
    assert k == p * (k / p) + k % p;
  }

  /** Then an order with i members before it is asked about within i / p + 1 ticks. */
  lemma PolledInTurn(buckets: seq<Bucket>, asked: seq<set<int>>, stamped: seq<set<int>>, p: nat, x: int)
    requires p > 0 && Ticks(buckets, asked, stamped, p) && x in buckets[0]
    requires var k := |Ahead(buckets[0], x)| / p; k < |asked| && Stays(buckets, x, k) && Undisturbed(buckets, p, x, k)
    ensures PolledWithin(asked, x, |Ahead(buckets[0], x)| / p + 1)
  {
    var k := |Ahead(buckets[0], x)| / p;
    DebtUndisturbed(buckets, p, x, k);
    BeyondAll(|Ahead(buckets[0], x)|, p);
    PolledInTime(buckets, asked, stamped, p, x, k);
  }

  // ---- exactly when an order starves ----

  /** A tick that asks about the head only and stamps it later than anything before, while
      nobody leaves; whoever likes may join. */
  ghost predicate BareTick(b: Bucket, b': Bucket, asked: set<int>, p: nat) {
    && asked == Head(b, p) && Moves(b, b', asked) && b.Keys <= b'.Keys
    && forall y, z :: y in asked && y in b' && z in b && b[z].Some? && b'[y].Some? ==> b[z].value < b'[y].value
  }

  ghost predicate BareTicks(buckets: seq<Bucket>, asked: seq<set<int>>, p: nat) {
    && |buckets| == |asked| + 1
    && forall i :: 0 <= i < |asked| ==> BareTick(buckets[i], buckets[i + 1], asked[i], p)
  }

  function JoinedAhead(b: Bucket, b': Bucket, x: int): set<int>
    requires x in b'
  {
    set y | y in b' && y !in b && Sooner(b', y, x)
  }

  /** Such a tick moves an order it does not reach by exactly p less those who join before it. */
  lemma BareAdvances(b: Bucket, b': Bucket, asked: set<int>, p: nat, x: int)
    requires BareTick(b, b', asked, p) && x in b && x !in asked
    ensures Held(b, b', p, x) == JoinedAhead(b, b', x)
    ensures |Ahead(b', x)| + p == |Ahead(b, x)| + |JoinedAhead(b, b', x)|
  {
    HeadExactly(b, x, p);
    var rest := Ahead(b, x) - Head(b, p);
    forall y ensures y in Ahead(b', x) <==> y in rest || y in JoinedAhead(b, b', x) {
      if y in b && y in Ahead(b', x) {
        NobodyOvertakes(b, b', asked, x, y);
      }
    }
    assert Ahead(b', x) == rest + JoinedAhead(b, b', x);
    assert Ahead(b, x) == rest + Head(b, p);
  }

  lemma {:induction false} BareStays(buckets: seq<Bucket>, asked: seq<set<int>>, p: nat, x: int, k: nat)
    requires BareTicks(buckets, asked, p) && x in buckets[0] && k <= |asked|
    ensures Stays(buckets, x, k)
  {
    if k > 0 {
      BareStays(buckets, asked, p, x, k - 1);
      assert BareTick(buckets[k - 1], buckets[k - 1 + 1], asked[k - 1], p);
    }
  }

  lemma OneMoreExactly(debt: int, before: int, held: int, now: int, p: nat, n: nat)
    requires before + p * n == debt && now + p == before + held
    ensures now + p * (n + 1) == debt + held
  {
    assert p * (n + 1) == p * n + p;
  }

  lemma {:induction false} BarePassedBy(buckets: seq<Bucket>, asked: seq<set<int>>, p: nat, x: int, k: nat)
    requires BareTicks(buckets, asked, p) && k <= |asked| && Stays(buckets, x, k)
    requires forall i :: 0 <= i < k ==> x !in asked[i]
    ensures |Ahead(buckets[k], x)| + p * k == Debt(buckets, p, x, k)
  {
    if k > 0 {
      var m := k - 1;
      BarePassedBy(buckets, asked, p, x, m);
      assert BareTick(buckets[m], buckets[m + 1], asked[m], p);
      BareAdvances(buckets[m], buckets[m + 1], asked[m], p, x);
      OneMoreExactly(Debt(buckets, p, x, m), |Ahead(buckets[m], x)|, |Held(buckets[m], buckets[m + 1], p, x)|,
                     |Ahead(buckets[m + 1], x)|, p, m);
    }
  }

  /** After some j < k ticks, one more is enough to serve all that is owed before x. */
  ghost predicate PaidOff(buckets: seq<Bucket>, p: nat, x: int, k: nat)
    requires k < |buckets| && Stays(buckets, x, k)
  {
    exists j: nat :: j < k && Debt(buckets, p, x, j) < p * (j + 1)
  }

  /** The condition of PolledInTime is exact: ticks that do no more than they must ask about
      an order within k ticks if and only if at some point before, those who were before it
      and those who joined before it are fewer than p for each tick. */
  lemma {:induction false} PolledExactly(buckets: seq<Bucket>, asked: seq<set<int>>, p: nat, x: int, k: nat)
    requires BareTicks(buckets, asked, p) && x in buckets[0] && k <= |asked|
    ensures Stays(buckets, x, k)
    ensures PolledWithin(asked, x, k) <==> PaidOff(buckets, p, x, k)
  {
    BareStays(buckets, asked, p, x, k);
    if PaidOff(buckets, p, x, k) {
      var j: nat :| j < k && Debt(buckets, p, x, j) < p * (j + 1);
      BareIsTick(buckets, asked, p);
      PolledInTime(buckets, asked, asked, p, x, j);
    }
    if PolledWithin(asked, x, k) {
      var i: nat :| i < k && i < |asked| && x in asked[i];
      FirstAsked(buckets, asked, p, x, i);
    }
  }

  lemma BareIsTick(buckets: seq<Bucket>, asked: seq<set<int>>, p: nat)
    requires BareTicks(buckets, asked, p)
    ensures Ticks(buckets, asked, asked, p)
  {
    forall i | 0 <= i < |asked| ensures Tick(buckets[i], buckets[i + 1], asked[i], asked[i], p) {
      assert BareTick(buckets[i], buckets[i + 1], asked[i], p);
    }
  }

  lemma {:induction false} FirstAsked(buckets: seq<Bucket>, asked: seq<set<int>>, p: nat, x: int, i: nat)
    requires BareTicks(buckets, asked, p) && i < |asked| && x in asked[i] && Stays(buckets, x, i)
    ensures exists j: nat :: j <= i && Debt(buckets, p, x, j) < p * (j + 1)
  {
    if h: nat :| h < i && x in asked[h] {
      FirstAsked(buckets, asked, p, x, h);
    } else {
      BarePassedBy(buckets, asked, p, x, i);
      assert BareTick(buckets[i], buckets[i + 1], asked[i], p);
      HeadExactly(buckets[i], x, p);
      assert p * (i + 1) == p * i + p;
    }
  }

  /** So p orders that join before it each tick keep an order waiting for as long as they do. */
  lemma {:induction false} FloodStarves(buckets: seq<Bucket>, asked: seq<set<int>>, p: nat, x: int, k: nat)
    requires BareTicks(buckets, asked, p) && x in buckets[0] && k <= |asked| && Stays(buckets, x, k)
    requires |Ahead(buckets[0], x)| >= p
    requires forall i :: 0 <= i < k ==> |JoinedAhead(buckets[i], buckets[i + 1], x)| >= p
    ensures !PolledWithin(asked, x, k)
  {
    if PolledWithin(asked, x, k) {
      var i: nat :| i < k && i < |asked| && x in asked[i];
      FirstAsked(buckets, asked, p, x, i);
      var j: nat :| j <= i && Debt(buckets, p, x, j) < p * (j + 1);
      DebtGrows(buckets, p, x, j);
    }
  }

  lemma {:induction false} DebtGrows(buckets: seq<Bucket>, p: nat, x: int, k: nat)
    requires Stays(buckets, x, k) && |Ahead(buckets[0], x)| >= p
    requires forall i :: 0 <= i < k ==> |JoinedAhead(buckets[i], buckets[i + 1], x)| >= p
    ensures Debt(buckets, p, x, k) >= p * (k + 1)
  {
    if k > 0 {
      DebtGrows(buckets, p, x, k - 1);
      SubsetSize(JoinedAhead(buckets[k - 1], buckets[k - 1 + 1], x), Held(buckets[k - 1], buckets[k], p, x));
      assert p * (k + 1) == p * k + p;
    }
  }

  lemma {:induction false} Above(s: set<int>) returns (m: int)
    ensures forall y :: y in s ==> y < m
    decreases s
  {
    if s == {} {
      m := 0;
    } else {
      NonEmpty(s);
      var x: int :| x in s;
      var rest := Above(s - {x});
      m := if rest <= x then x + 1 else rest;
      assert forall y :: y in s ==> y == x || y in s - {x};
    }
  }

  lemma LaterThanAll(b: Bucket) returns (t: int)
    ensures forall y :: y in b && b[y].Some? ==> b[y].value < t
  {
    var stamps := set y | y in b && b[y].Some? :: b[y].value;
    t := Above(stamps);
    forall y | y in b && b[y].Some? ensures b[y].value < t {
      assert b[y].value in stamps;
    }
  }

  function Span(m: int, p: nat): (r: set<int>)
    ensures forall j :: j in r <==> m <= j < m + p
    ensures |r| == p
  {
    if p == 0 then {} else Span(m, p - 1) + {m + p - 1}
  }

  /** The bucket with new stamps at t for some, and never-polled orders that join. */
  function Flooded(b: Bucket, head: set<int>, joining: set<int>, t: int): Bucket {
    (map y | y in b :: if y in head then Some(t) else b[y]) + map y | y in joining :: None
  }

  lemma FloodMoves(b: Bucket, head: set<int>, joining: set<int>, t: int)
    requires joining !! b.Keys && forall y :: y in b && b[y].Some? ==> b[y].value < t
    ensures var b' := Flooded(b, head, joining, t);
      && Moves(b, b', head) && b.Keys <= b'.Keys
      && (head <= b.Keys ==> forall y :: y in head ==> b'[y] == Some(t))
  {}

  lemma FloodComesFirst(b: Bucket, head: set<int>, joining: set<int>, t: int, x: int)
    requires joining !! b.Keys && x in b && b[x].Some? && x !in head
    ensures var b' := Flooded(b, head, joining, t); x in b' && b'[x] == b[x] && joining <= JoinedAhead(b, b', x)
  {}

  lemma OneFlood(b: Bucket, p: nat, x: int) returns (b': Bucket)
    requires x in b && b[x].Some? && |Ahead(b, x)| >= p
    ensures FloodTick(b, b', Head(b, p), p, x) && b'[x].Some? && |Ahead(b', x)| >= p
  {
    var m := Above(b.Keys);
    var t := LaterThanAll(b);
    var head, joining := Head(b, p), Span(m, p);
    b' := Flooded(b, head, joining, t);
    HeadExactly(b, x, p);
    assert head <= b.Keys;
    FloodMoves(b, head, joining, t);
    FloodComesFirst(b, head, joining, t, x);
    SubsetSize(joining, JoinedAhead(b, b', x));
    SubsetSize(JoinedAhead(b, b', x), Ahead(b', x));
  }

  /** A bare tick that passes x by while p or more join before it. */
  ghost predicate FloodTick(b: Bucket, b': Bucket, asked: set<int>, p: nat, x: int) {
    BareTick(b, b', asked, p) && x in b && x in b' && x !in asked && |JoinedAhead(b, b', x)| >= p
  }

  ghost predicate Flood(buckets: seq<Bucket>, asked: seq<set<int>>, p: nat, x: int) {
    && |buckets| == |asked| + 1
    && forall i :: 0 <= i < |asked| ==> FloodTick(buckets[i], buckets[i + 1], asked[i], p, x)
  }

  lemma FloodGoesOn(buckets: seq<Bucket>, asked: seq<set<int>>, p: nat, x: int, next: Bucket, now: set<int>)
    requires Flood(buckets, asked, p, x) && FloodTick(buckets[|asked|], next, now, p, x)
    ensures Flood(buckets + [next], asked + [now], p, x)
  {
    var buckets', asked' := buckets + [next], asked + [now];
    forall i | 0 <= i < |asked'| ensures FloodTick(buckets'[i], buckets'[i + 1], asked'[i], p, x) {
      if i < |asked| {
        assert FloodTick(buckets[i], buckets[i + 1], asked[i], p, x);
      }
    }
  }

  /** And such a flood is possible from any bucket, for any number of ticks, against any
      order that has been polled before and has p others before it. */
  lemma {:induction false} Starves(b: Bucket, p: nat, x: int, k: nat)
    returns (buckets: seq<Bucket>, asked: seq<set<int>>)
    requires x in b && b[x].Some? && |Ahead(b, x)| >= p
    ensures |asked| == k && Flood(buckets, asked, p, x) && buckets[0] == b
    ensures x in buckets[k] && buckets[k][x].Some? && |Ahead(buckets[k], x)| >= p
    ensures !PolledWithin(asked, x, k)
  {
    if k == 0 {
      buckets, asked := [b], [];
    } else {
      var before, asked' := Starves(b, p, x, k - 1);
      var last := before[k - 1];
      var next := OneFlood(last, p, x);
      FloodGoesOn(before, asked', p, x, next, Head(last, p));
      buckets, asked := before + [next], asked' + [Head(last, p)];
    }
  }

  /** A row of the prefix is polled under its order's number. */
  lemma RowPolled<T>(items: seq<Item>, live: seq<T>, late: seq<T>, n: nat, x: Item)
    requires forall y :: y in items ==> y.rank < if y.late then |late| else |live|
    requires n <= |items| && x in items[..n]
    ensures x.rank < if x.late then |late| else |live|
    ensures (if x.late then late[x.rank] else live[x.rank]) in Named(items, live, late)[..n]
  {
    var i :| 0 <= i < n && items[..n][i] == x;
    assert items[i] in items;
    assert Named(items, live, late)[..n][i] == if x.late then late[x.rank] else live[x.rank];
  }

  /** The first n orders of the list over two queues, or the whole list. */
  function Polled(live: seq<int>, late: seq<int>, n: nat): seq<int> {
    WorkConserving(|live|, |late|);
    var list := Named(WaitingItems(|live|, |late|), live, late);
    list[..Min(n, |list|)]
  }

  /** Orders of each bucket that n rows of the list reach, if there are so many. */
  function LatePerTick(n: nat): (p: nat)
    ensures n >= 2 ==> p > 0
  {
    Min(LATE_SHARE, (n + 3) / 5)
  }

  function LivePerTick(n: nat): (p: nat)
    ensures n >= 1 ==> p > 0
  {
    Min(LIVE_SHARE, n - (n + 3) / 5)
  }

  /** The list of rows that a tick reaches has these late rows, and these live ones. */
  lemma RowsReached(live: nat, late: nat, n: nat, x: Item)
    requires x.rank < if x.late then late else live
    requires x.rank < if x.late then LatePerTick(n) else LivePerTick(n)
    ensures var items := WaitingItems(live, late); x in items[..Min(n, |items|)]
  {
    var items := WaitingItems(live, late);
    WorkConserving(live, late);
    if n <= |items| {
      SharesOfPrefix(items, live, late, n);
      PrefixRanks(items, live, late, n);
    } else {
      assert x in items && items[..|items|] == items;
    }
  }

  lemma LateHeadPolled(queue: seq<int>, late: Bucket, n: nat, p: nat)
    requires p == LatePerTick(n)
    ensures Head(late, p) <= Members(Polled(queue, Queue(late, late.Keys), n))
  {
    var r := Queue(late, late.Keys);
    var items := WaitingItems(|queue|, |r|);
    forall i: nat | i < |r| && i < p ensures r[i] in Polled(queue, r, n) {
      WorkConserving(|queue|, |r|);
      RowsReached(|queue|, |r|, n, Item(true, i));
      RowPolled(items, queue, r, Min(n, |items|), Item(true, i));
    }
    HeadWithin(late, p, Polled(queue, r, n));
  }

  lemma LiveHeadPolled(live: Bucket, queue: seq<int>, n: nat, p: nat)
    requires p == LivePerTick(n)
    ensures Head(live, p) <= Members(Polled(Queue(live, live.Keys), queue, n))
  {
    var q := Queue(live, live.Keys);
    var items := WaitingItems(|q|, |queue|);
    forall i: nat | i < |q| && i < p ensures q[i] in Polled(q, queue, n) {
      WorkConserving(|q|, |queue|);
      RowsReached(|q|, |queue|, n, Item(false, i));
      RowPolled(items, q, queue, Min(n, |items|), Item(false, i));
    }
    HeadWithin(live, p, Polled(q, queue, n));
  }

  lemma HeadWithin(b: Bucket, p: nat, polled: seq<int>)
    requires forall i :: 0 <= i < |Queue(b, b.Keys)| && i < p ==> Queue(b, b.Keys)[i] in polled
    ensures Head(b, p) <= Members(polled)
  {}

  /** A tick that gets through the first n orders of the list polls the head of both
      buckets: up to a fifth of n, rounded up, and 40 of the late one; the rest of n, up
      to 160, of the live one. */
  lemma TickPollsHeads(live: Bucket, late: Bucket, n: nat)
    ensures var polled := Members(Polled(Queue(live, live.Keys), Queue(late, late.Keys), n));
      Head(late, LatePerTick(n)) <= polled && Head(live, LivePerTick(n)) <= polled
  {
    LateHeadPolled(Queue(live, live.Keys), late, n, LatePerTick(n));
    LiveHeadPolled(live, Queue(late, late.Keys), n, LivePerTick(n));
  }

  // ---- end to end ----

  /** A run of ticks over both buckets, each of which gets through n orders of its list. */
  ghost predicate PollRun(lives: seq<Bucket>, lates: seq<Bucket>, asked: seq<set<int>>, stamped: seq<set<int>>,
                          n: nat)
  {
    && |lives| == |lates| == |asked| + 1 && |stamped| == |asked|
    && forall i :: 0 <= i < |asked| ==>
         && Members(Polled(Queue(lives[i], lives[i].Keys), Queue(lates[i], lates[i].Keys), n)) <= asked[i]
         && stamped[i] <= asked[i]
  }

  ghost predicate Rotates(buckets: seq<Bucket>, stamped: seq<set<int>>) {
    && |buckets| == |stamped| + 1
    && forall i :: 0 <= i < |stamped| ==> Moves(buckets[i], buckets[i + 1], stamped[i])
  }

  /** Whatever the live bucket does meanwhile: a late order is asked about within k + 1 ticks
      when those before it, and those who joined or held a place before it in the first k,
      are fewer than min(40, (n + 3) / 5) for each tick. */
  lemma {:induction false} LatePolledInTime(lives: seq<Bucket>, lates: seq<Bucket>, asked: seq<set<int>>,
                                            stamped: seq<set<int>>, n: nat, x: int, k: nat)
    requires PollRun(lives, lates, asked, stamped, n) && Rotates(lates, stamped)
    requires k < |asked| && Stays(lates, x, k)
    requires Debt(lates, LatePerTick(n), x, k) < LatePerTick(n) * (k + 1)
    ensures PolledWithin(asked, x, k + 1)
  {
    forall i | 0 <= i < |asked| ensures Tick(lates[i], lates[i + 1], asked[i], stamped[i], LatePerTick(n)) {
      TickPollsHeads(lives[i], lates[i], n);
      assert Moves(lates[i], lates[i + 1], stamped[i]);
    }
    PolledInTime(lates, asked, stamped, LatePerTick(n), x, k);
  }

  /** Whatever the late bucket does meanwhile: likewise for a live order, with
      min(160, n - (n + 3) / 5) for each tick. */
  lemma {:induction false} LivePolledInTime(lives: seq<Bucket>, lates: seq<Bucket>, asked: seq<set<int>>,
                                            stamped: seq<set<int>>, n: nat, x: int, k: nat)
    requires PollRun(lives, lates, asked, stamped, n) && Rotates(lives, stamped)
    requires k < |asked| && Stays(lives, x, k)
    requires Debt(lives, LivePerTick(n), x, k) < LivePerTick(n) * (k + 1)
    ensures PolledWithin(asked, x, k + 1)
  {
    forall i | 0 <= i < |asked| ensures Tick(lives[i], lives[i + 1], asked[i], stamped[i], LivePerTick(n)) {
      TickPollsHeads(lives[i], lates[i], n);
      assert Moves(lives[i], lives[i + 1], stamped[i]);
    }
    PolledInTime(lives, asked, stamped, LivePerTick(n), x, k);
  }

  /** A tick that gets through one order only asks about a live one if there is any, and
      else about the first late one. */
  lemma OneRowIsLive(live: seq<int>, late: seq<int>)
    ensures LatePerTick(1) == 0
    ensures Polled(live, late, 1) == if |live| > 0 then [live[0]] else if |late| > 0 then [late[0]] else []
  {
    WorkConserving(|live|, |late|);
    if |live| > 0 {
      assert WaitingItems(|live|, |late|)[0] == Item(false, 0);
    } else if |late| > 0 {
      assert WaitingItems(0, |late|)[0] == Item(true, 0);
    }
  }

  // ---- the rows behind it ----

  datatype Row = Row(unpaid: bool, minor: Option<int>, expires: Option<int>, polled: Option<int>)

  /** The cldx columns of the orders table. */
  class Orders {
    var rows: map<string, Row>

    constructor ()
      ensures rows == map[]
    {
      rows := map[];
    }

    /** The first successful quote is authoritative: COALESCE keeps what is there. */
    method LockCldxQuote(sn: string, minor: int, expires: int) returns (quote: Option<(int, int)>)
      modifies this
      ensures (rows, quote) == LockQuote(old(rows), sn, minor, expires)
    {
      if sn !in rows || !rows[sn].unpaid {
        return None;
      }
      var row := rows[sn];
      if row.minor.None? {
        row := row.(minor := Some(minor));
      }
      if row.expires.None? {
        row := row.(expires := Some(expires));
      }
      rows := rows[sn := row];
      return Some((row.minor.value, row.expires.value));
    }

    /** A poll mark touches no quote and no other order. */
    method MarkCldxPolled(sn: string, at: int)
      modifies this
      ensures rows.Keys == old(rows).Keys
      ensures forall k :: k in rows ==> rows[k].(polled := None) == old(rows)[k].(polled := None)
      ensures rows == if sn in old(rows) then old(rows)[sn := old(rows)[sn].(polled := Some(at))] else old(rows)
    {
      if sn in rows {
        rows := rows[sn := rows[sn].(polled := Some(at))];
      }
    }
  }

  function LockQuote(rows: map<string, Row>, sn: string, minor: int, expires: int)
    : (map<string, Row>, Option<(int, int)>)
  {
    if sn !in rows || !rows[sn].unpaid then (rows, None) else
    var m := if rows[sn].minor.Some? then rows[sn].minor.value else minor;
    var x := if rows[sn].expires.Some? then rows[sn].expires.value else expires;
    (rows[sn := rows[sn].(minor := Some(m), expires := Some(x))], Some((m, x)))
  }

  /** A request for a quote, a poll mark, or the order leaving the unpaid state. */
  datatype Request = Quote(sn: string, minor: int, expires: int) | Mark(sn: string, at: int) | Leave(sn: string)

  function Apply(rows: map<string, Row>, r: Request): map<string, Row> {
    match r
    case Quote(sn, minor, expires) => LockQuote(rows, sn, minor, expires).0
    case Mark(sn, at) => if sn in rows then rows[sn := rows[sn].(polled := Some(at))] else rows
    case Leave(sn) => if sn in rows then rows[sn := rows[sn].(unpaid := false)] else rows
  }

  function ApplyAll(rows: map<string, Row>, rs: seq<Request>): map<string, Row> {
    if |rs| == 0 then rows else Apply(ApplyAll(rows, rs[..|rs| - 1]), rs[|rs| - 1])
  }

  /** Once answered, a quote never changes: whatever requests come between, every later
      successful answer for the order is the first one. */
  lemma {:induction false} QuoteWrittenOnce(rows: map<string, Row>, sn: string, minor: int, expires: int,
                                            rs: seq<Request>, minor': int, expires': int)
    requires LockQuote(rows, sn, minor, expires).1.Some?
    ensures var first := LockQuote(rows, sn, minor, expires);
      var after := ApplyAll(first.0, rs);
      && sn in after && after[sn].minor == Some(first.1.value.0) && after[sn].expires == Some(first.1.value.1)
      && (LockQuote(after, sn, minor', expires').1.Some? ==> LockQuote(after, sn, minor', expires').1 == first.1)
  {
    if |rs| > 0 {
      QuoteWrittenOnce(rows, sn, minor, expires, rs[..|rs| - 1], minor', expires');
    }
  }

  /** The first answer for an unpaid order without a quote is the quote that was asked for,
      and an order that is not unpaid gets none. */
  lemma FirstQuote(rows: map<string, Row>, sn: string, minor: int, expires: int)
    ensures sn in rows && rows[sn].unpaid && rows[sn].minor.None? && rows[sn].expires.None? ==>
      LockQuote(rows, sn, minor, expires) ==
        (rows[sn := rows[sn].(minor := Some(minor), expires := Some(expires))], Some((minor, expires)))
    ensures sn !in rows || !rows[sn].unpaid ==> LockQuote(rows, sn, minor, expires) == (rows, None)
  {}
}
