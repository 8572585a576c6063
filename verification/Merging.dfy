/** Merging the measurements of node databases into one table. */
module Merging {
  datatype Option<+T> = None | Some(value: T)

  /** One measurement; its key is the statistic and the time. */
  datatype Sums = Sums(count: int, sum: real, sum2: real, max: real, min: real)

  /** Measurements by key: in the database, the id of a statistic and a time. */
  type Table<K(==)> = map<K, Sums>

  function Max(a: real, b: real): real { if a >= b then a else b }
  function Min(a: real, b: real): real { if a <= b then a else b }

  /** Both measurements taken together. */
  function Together(a: Sums, b: Sums): Sums {
    Sums(a.count + b.count, a.sum + b.sum, a.sum2 + b.sum2, Max(a.max, b.max), Min(a.min, b.min))
  }

  function Merged<K>(a: Table<K>, b: Table<K>): Table<K> {
    map k | k in a.Keys + b.Keys :: if k !in b then a[k] else if k !in a then b[k] else Together(a[k], b[k])
  }

  /** The experiment's table.  A row whose value columns are null is None. */
  class Experiment<K(==)> {
    var measurements: map<K, Option<Sums>>

    constructor ()
      ensures measurements == map[]
    {
      measurements := map[];
    }

    /** No row is left without values. */
    ghost predicate Complete()
      reads this
    {
      forall k :: k in measurements ==> measurements[k].Some?
    }

    ghost function Contents(): (t: Table<K>)
      reads this
      requires Complete()
    {
      map k | k in measurements :: measurements[k].value
    }

    /** Inserts a null row for each new key, then replaces each attached key's row by the sum
        of both, or by the attached values where the row was null. */
    method CopyStatisticEntries(attached: Table<K>)
      requires Complete()
      modifies this
      ensures Complete() && Contents() == Merged(old(Contents()), attached)
    {
      measurements := map k | k in measurements.Keys + attached.Keys ::
        if k in measurements then measurements[k] else None;
      measurements := map k | k in measurements ::
        if k !in attached then measurements[k]
        else match measurements[k]
             case None => Some(attached[k])
             case Some(nn) => Some(Together(nn, attached[k]));
    }
  }

  lemma MergeCommutes<K>(a: Table<K>, b: Table<K>)
    ensures Merged(a, b) == Merged(b, a)
  {
  }

  lemma MergeAssociates<K>(a: Table<K>, b: Table<K>, c: Table<K>)
    ensures Merged(Merged(a, b), c) == Merged(a, Merged(b, c))
  {
    forall k | k in a.Keys + b.Keys + c.Keys
      ensures Merged(Merged(a, b), c)[k] == Merged(a, Merged(b, c))[k]
    {
    }
  }

  /** All tables merged, one after another. */
  function MergeAll<K>(tables: seq<Table<K>>): Table<K> {
    if tables == [] then map[] else Merged(MergeAll(tables[..|tables| - 1]), tables[|tables| - 1])
  }

  // What the merged table should say, key by key.
  function TotalCount<K>(tables: seq<Table<K>>, k: K): int {
    if tables == [] then 0
    else TotalCount(tables[..|tables| - 1], k) + if k in tables[|tables| - 1] then tables[|tables| - 1][k].count else 0
  }

  function TotalSum<K>(tables: seq<Table<K>>, k: K): real {
    if tables == [] then 0.0
    else TotalSum(tables[..|tables| - 1], k) + if k in tables[|tables| - 1] then tables[|tables| - 1][k].sum else 0.0
  }

  function TotalSum2<K>(tables: seq<Table<K>>, k: K): real {
    if tables == [] then 0.0
    else TotalSum2(tables[..|tables| - 1], k) + if k in tables[|tables| - 1] then tables[|tables| - 1][k].sum2 else 0.0
  }

  ghost predicate Extremes<K>(tables: seq<Table<K>>, k: K, s: Sums) {
    && (forall i :: 0 <= i < |tables| && k in tables[i] ==> s.min <= tables[i][k].min && tables[i][k].max <= s.max)
    && (exists i :: 0 <= i < |tables| && k in tables[i] && tables[i][k].max == s.max)
    && (exists i :: 0 <= i < |tables| && k in tables[i] && tables[i][k].min == s.min)
  }

  /** A key is in the merged table if it is in any; its counts and sums are the totals, its
      extremes the overall extremes. */
  lemma {:induction false} MergeAllMeans<K>(tables: seq<Table<K>>, k: K)
    ensures k in MergeAll(tables) <==> exists i :: 0 <= i < |tables| && k in tables[i]
    ensures k in MergeAll(tables) ==> var s := MergeAll(tables)[k];
      s.count == TotalCount(tables, k) && s.sum == TotalSum(tables, k) && s.sum2 == TotalSum2(tables, k)
      && Extremes(tables, k, s)
    ensures k !in MergeAll(tables) ==> TotalCount(tables, k) == 0 && TotalSum(tables, k) == 0.0 == TotalSum2(tables, k)
  {
    if tables != [] {
      var init, last := tables[..|tables| - 1], tables[|tables| - 1];
      MergeAllMeans(init, k);
      assert tables == init + [last];
      if k in MergeAll(init) {
        ExtremesMore(init, last, k, MergeAll(init)[k]);
      } else if k in last {
        assert tables[|init|] == last;
      }
    }
  }

  lemma ExtremesMore<K>(tables: seq<Table<K>>, last: Table<K>, k: K, s: Sums)
    requires Extremes(tables, k, s)
    ensures Extremes(tables + [last], k, if k in last then Together(s, last[k]) else s)
  {
    var all := tables + [last];
    assert all[|tables|] == last;
    var i :| 0 <= i < |tables| && k in tables[i] && tables[i][k].max == s.max;
    var j :| 0 <= j < |tables| && k in tables[j] && tables[j][k].min == s.min;
    assert all[i] == tables[i] && all[j] == tables[j];
  }

  /** Any one table could as well have been merged last. */
  lemma {:induction false} MergedLast<K>(tables: seq<Table<K>>, i: nat)
    requires i < |tables|
    ensures MergeAll(tables) == Merged(MergeAll(tables[..i] + tables[i + 1..]), tables[i])
  {
    var n := |tables| - 1;
    if i < n {
      var init := tables[..n];
      MergedLast(init, i);
      var rest := init[..i] + init[i + 1..];
      assert tables[..i] + tables[i + 1..] == rest + [tables[n]];
      assert (rest + [tables[n]])[..|rest|] == rest;
      MergeAssociates(MergeAll(rest), tables[i], tables[n]);
      MergeCommutes(tables[i], tables[n]);
      MergeAssociates(MergeAll(rest), tables[n], tables[i]);
    } else {
      assert tables[..i] + tables[i + 1..] == tables[..n];
    }
  }

  /** The order of the databases does not matter. */
  lemma {:induction false} OrderIrrelevant<K>(a: seq<Table<K>>, b: seq<Table<K>>)
    requires multiset(a) == multiset(b)
    ensures MergeAll(a) == MergeAll(b)
    decreases |a|
  {
    if a == [] {
      assert |multiset(a)| == 0;
      assert b == [];
    } else {
      var n := |a| - 1;
      var x := a[n];
      assert x in multiset(a);
      var i :| 0 <= i < |b| && b[i] == x;
      var b' := b[..i] + b[i + 1..];
      assert b == b[..i] + [x] + b[i + 1..];
      assert a == a[..n] + [x];
      assert multiset(a[..n]) == multiset(a) - multiset{x};
      assert multiset(b') == multiset(b) - multiset{x};
      OrderIrrelevant(a[..n], b');
      MergedLast(b, i);
    }
  }
}
