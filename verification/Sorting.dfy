/** Stable sorting by a tuple of numbers and texts, as Python's `sorted` with a key does. */
module Sorting {
  import Canonical

  datatype Part = Number(n: int) | Text(s: string)

  type Rank = seq<Part>

  predicate PartLess(a: Part, b: Part) {
    match (a, b)
    case (Number(m), Number(n)) => m < n
    case (Text(s), Text(t)) => Canonical.Less(s, t)
    case (Number(_), Text(_)) => true
    case (Text(_), Number(_)) => false
  }

  predicate Less(a: Rank, b: Rank) {
    if b == [] then false
    else if a == [] then true
    else PartLess(a[0], b[0]) || (a[0] == b[0] && Less(a[1..], b[1..]))
  }

  lemma {:induction false} PartOrder(a: Part, b: Part, c: Part)
    ensures !PartLess(a, a)
    ensures PartLess(a, b) || a == b || PartLess(b, a)
    ensures PartLess(a, b) && PartLess(b, c) ==> PartLess(a, c)
  {
    if a.Text? && b.Text? {
      Canonical.LessIsStrictOrder(a.s, b.s, if c.Text? then c.s else "");
      Canonical.LessIrreflexive(a.s);
    }
    if a.Text? { Canonical.LessIrreflexive(a.s); }
  }

  lemma {:induction false} RankIrreflexive(a: Rank)
    ensures !Less(a, a)
  {
    if a != [] {
      PartOrder(a[0], a[0], a[0]);
      RankIrreflexive(a[1..]);
    }
  }

  /** Ranks are totally ordered. */
  lemma {:induction false} RankOrder(a: Rank, b: Rank, c: Rank)
    ensures !Less(a, a)
    ensures Less(a, b) || a == b || Less(b, a)
    ensures Less(a, b) && Less(b, c) ==> Less(a, c)
    decreases |a| + |b| + |c|
  {
    hide PartLess;
    RankIrreflexive(a);
    if a != [] && b != [] {
      PartOrder(a[0], b[0], if c != [] then c[0] else a[0]);
      RankOrder(a[1..], b[1..], if c != [] then c[1..] else []);
      assert a == [a[0]] + a[1..] && b == [b[0]] + b[1..];
    }
  }

  // ----- insertion sort

  function Insert<T>(rank: T -> Rank, x: T, xs: seq<T>): seq<T> {
    if xs == [] || Less(rank(x), rank(xs[0])) then [x] + xs
    else [xs[0]] + Insert(rank, x, xs[1..])
  }

  /** Later elements go behind equal earlier ones, so equal ranks keep their order. */
  function SortBy<T>(rank: T -> Rank, xs: seq<T>): seq<T> {
    if xs == [] then [] else Insert(rank, xs[|xs| - 1], SortBy(rank, xs[..|xs| - 1]))
  }

  predicate Ascending<T>(rank: T -> Rank, xs: seq<T>) {
    forall i, j | 0 <= i < j < |xs| :: !Less(rank(xs[j]), rank(xs[i]))
  }

  predicate Strict<T>(rank: T -> Rank, xs: seq<T>) {
    forall i, j | 0 <= i < j < |xs| :: Less(rank(xs[i]), rank(xs[j]))
  }

  lemma {:induction false} InsertPermutes<T>(rank: T -> Rank, x: T, xs: seq<T>)
    ensures multiset(Insert(rank, x, xs)) == multiset(xs) + multiset{x}
  {
    hide Less;
    if xs == [] || Less(rank(x), rank(xs[0])) {
    } else {
      InsertPermutes(rank, x, xs[1..]);
      assert xs == [xs[0]] + xs[1..];
    }
  }

  lemma {:induction false} InsertAscends<T>(rank: T -> Rank, x: T, xs: seq<T>)
    requires Ascending(rank, xs)
    ensures Ascending(rank, Insert(rank, x, xs))
  {
    hide Less;
    var r := Insert(rank, x, xs);
    if xs == [] {
    } else if Less(rank(x), rank(xs[0])) {
      forall i, j | 0 <= i < j < |r| ensures !Less(rank(r[j]), rank(r[i])) {
        if i == 0 {
          RankOrder(rank(r[j]), rank(x), rank(xs[0]));
          RankOrder(rank(x), rank(xs[0]), rank(r[j]));
          assert j == 1 || !Less(rank(xs[j - 1]), rank(xs[0]));
          RankOrder(rank(r[j]), rank(r[j]), rank(r[j]));
        } else {
          assert r[i] == xs[i - 1] && r[j] == xs[j - 1];
        }
      }
    } else {
      var rest := Insert(rank, x, xs[1..]);
      InsertAscends(rank, x, xs[1..]);
      InsertPermutes(rank, x, xs[1..]);
      forall i, j | 0 <= i < j < |r| ensures !Less(rank(r[j]), rank(r[i])) {
        if i == 0 {
          assert rest[j - 1] in multiset(rest);
          assert rest[j - 1] == x || rest[j - 1] in xs[1..];
        } else {
          assert r[i] == rest[i - 1] && r[j] == rest[j - 1];
        }
      }
    }
  }

  lemma {:induction false} SingleAscends<T>(rank: T -> Rank, xs: seq<T>)
    requires xs == []
    ensures Ascending(rank, SortBy(rank, xs))
  {
  }

  lemma {:induction false} SortSorts<T>(rank: T -> Rank, xs: seq<T>)
    ensures Ascending(rank, SortBy(rank, xs)) && multiset(SortBy(rank, xs)) == multiset(xs)
  {
    hide Ascending, Insert;
    if xs == [] {
      assert Ascending(rank, SortBy(rank, xs)) by { SingleAscends(rank, xs); }
    } else {
      var n := |xs| - 1;
      SortSorts(rank, xs[..n]);
      InsertAscends(rank, xs[n], SortBy(rank, xs[..n]));
      InsertPermutes(rank, xs[n], SortBy(rank, xs[..n]));
      assert xs == xs[..n] + [xs[n]];
    }
  }

  lemma {:induction false} InBoth<T>(xs: seq<T>, ys: seq<T>, x: T)
    requires multiset(xs) == multiset(ys)
    ensures x in xs <==> x in ys
  {
    assert x in xs <==> x in multiset(xs);
    assert x in ys <==> x in multiset(ys);
  }

  lemma {:induction false} FirstBelow<T>(rank: T -> Rank, xs: seq<T>, i: nat)
    requires Strict(rank, xs) && 0 < i < |xs|
    ensures Less(rank(xs[0]), rank(xs[i]))
  {
  }

  lemma {:induction false} NoneBelowFirst<T>(rank: T -> Rank, ys: seq<T>, j: nat)
    requires Ascending(rank, ys) && j < |ys|
    ensures !Less(rank(ys[j]), rank(ys[0]))
  {
    RankIrreflexive(rank(ys[0]));
  }

  lemma {:induction false} SameFirst<T>(rank: T -> Rank, xs: seq<T>, ys: seq<T>)
    requires Strict(rank, xs) && Ascending(rank, ys) && multiset(xs) == multiset(ys) && xs != [] && ys != []
    ensures xs[0] == ys[0]
  {
    hide Less, Strict, Ascending;
    var i := IndexOf(xs, ys, ys[0]);
    var j := IndexOf(ys, xs, xs[0]);
    NoneBelowFirst(rank, ys, j);
    if i != 0 { FirstBelow(rank, xs, i); }
  }

  /** There is one ascending order of elements whose ranks all differ. */
  lemma {:induction false} AscendingUnique<T>(rank: T -> Rank, xs: seq<T>, ys: seq<T>)
    requires Strict(rank, xs) && Ascending(rank, ys) && multiset(xs) == multiset(ys)
    ensures xs == ys
  {
    hide Less;
    assert |xs| == |multiset(xs)| && |ys| == |multiset(ys)|;
    if xs != [] {
      SameFirst(rank, xs, ys);
      assert xs == [xs[0]] + xs[1..] && ys == [ys[0]] + ys[1..];
      assert multiset(xs[1..]) == multiset(xs) - multiset{xs[0]};
      assert multiset(ys[1..]) == multiset(ys) - multiset{ys[0]};
      AscendingUnique(rank, xs[1..], ys[1..]);
    }
  }

  lemma {:induction false} IndexOf<T>(xs: seq<T>, ys: seq<T>, y: T) returns (i: nat)
    requires multiset(xs) == multiset(ys) && y in ys
    ensures i < |xs| && xs[i] == y
  {
    InBoth(xs, ys, y);
    i :| 0 <= i < |xs| && xs[i] == y;
  }

  lemma {:induction false} AscendingIsStrict<T>(rank: T -> Rank, xs: seq<T>)
    requires Ascending(rank, xs)
    requires forall i, j | 0 <= i < j < |xs| :: rank(xs[i]) != rank(xs[j])
    ensures Strict(rank, xs)
  {
    hide Less;
    forall i, j | 0 <= i < j < |xs| ensures Less(rank(xs[i]), rank(xs[j])) {
      RankOrder(rank(xs[i]), rank(xs[j]), rank(xs[i]));
    }
  }

  ghost predicate DistinctRanks<T>(rank: T -> Rank, xs: seq<T>) {
    forall i, j | 0 <= i < j < |xs| :: rank(xs[i]) != rank(xs[j])
  }

  lemma {:induction false} TwiceCounts<T>(ys: seq<T>, i: nat, j: nat)
    requires i < j < |ys| && ys[i] == ys[j]
    ensures multiset(ys)[ys[i]] >= 2
  {
    assert ys == ys[..j] + ys[j..];
    assert ys[..j][i] == ys[i] && ys[j..][0] == ys[j];
    assert ys[i] in multiset(ys[..j]) && ys[i] in multiset(ys[j..]);
  }

  lemma {:induction false} OnceCounts<T>(xs: seq<T>, x: T)
    requires forall i, j | 0 <= i < j < |xs| :: !(xs[i] == x && xs[j] == x)
    ensures multiset(xs)[x] <= 1
  {
    if xs != [] {
      assert xs == [xs[0]] + xs[1..];
      OnceCounts(xs[1..], x);
      if xs[0] == x {
        assert x !in xs[1..] by {
          assert forall j | 0 <= j < |xs[1..]| :: xs[1..][j] == xs[j + 1];
        }
        assert x !in multiset(xs[1..]);
      }
    }
  }

  lemma {:induction false} DistinctPermuted<T>(rank: T -> Rank, xs: seq<T>, ys: seq<T>)
    requires DistinctRanks(rank, xs) && multiset(xs) == multiset(ys)
    ensures DistinctRanks(rank, ys)
  {
    forall i, j | 0 <= i < j < |ys| ensures rank(ys[i]) != rank(ys[j]) {
      var k := IndexOf(xs, ys, ys[i]);
      var l := IndexOf(xs, ys, ys[j]);
      if rank(ys[i]) == rank(ys[j]) {
        assert k == l;
        TwiceCounts(ys, i, j);
        OnceCounts(xs, ys[i]);
      }
    }
  }

  /** Sorting by ranks that all differ does not depend on the order of the input. */
  lemma {:induction false} SortInvariant<T>(rank: T -> Rank, xs: seq<T>, ys: seq<T>)
    requires DistinctRanks(rank, xs) && multiset(xs) == multiset(ys)
    ensures SortBy(rank, xs) == SortBy(rank, ys) && Strict(rank, SortBy(rank, xs))
  {
    SortSorts(rank, xs);
    SortSorts(rank, ys);
    DistinctPermuted(rank, xs, SortBy(rank, xs));
    AscendingIsStrict(rank, SortBy(rank, xs));
    AscendingUnique(rank, SortBy(rank, xs), SortBy(rank, ys));
  }

  lemma {:induction false} StrictOnce<T>(rank: T -> Rank, xs: seq<T>, x: T)
    requires Strict(rank, xs)
    ensures multiset(xs)[x] == if x in xs then 1 else 0
  {
    hide Less;
    forall i, j | 0 <= i < j < |xs| ensures !(xs[i] == x && xs[j] == x) {
      RankIrreflexive(rank(xs[i]));
    }
    OnceCounts(xs, x);
    assert x in xs <==> x in multiset(xs);
  }

  /** Strictly ascending sequences of the same elements are equal. */
  lemma {:induction false} StrictSameSet<T>(rank: T -> Rank, xs: seq<T>, ys: seq<T>)
    requires Strict(rank, xs) && Strict(rank, ys)
    requires (forall x | x in xs :: x in ys) && (forall y | y in ys :: y in xs)
    ensures xs == ys
  {
    hide Less;
    forall x | x in multiset(xs) || x in multiset(ys) ensures multiset(xs)[x] == multiset(ys)[x] {
      assert (x in multiset(xs) <==> x in xs) && (x in multiset(ys) <==> x in ys);
      StrictOnce(rank, xs, x);
      StrictOnce(rank, ys, x);
    }
    assert multiset(xs) == multiset(ys);
    forall i, j | 0 <= i < j < |ys| ensures !Less(rank(ys[j]), rank(ys[i])) {
      RankOrder(rank(ys[i]), rank(ys[j]), rank(ys[i]));
    }
    AscendingUnique(rank, xs, ys);
  }
}
