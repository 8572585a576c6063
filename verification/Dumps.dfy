/** Renaming dump ids: the loop renames statistics where it should rename dumps, and renames
    dumps only when it breaks a cycle. */
module Dumps {
  import opened Renaming

  /** A dump table after the loop was called for dumps: only opened entries rename it. */
  function DumpsAfter<K, D>(rows: seq<Row<K, D>>, ms: seq<Move>): seq<Row<K, D>>
    decreases |ms|
  {
    if ms == [] then rows
    else DumpsAfter(if ms[0].Open? then Renamed(rows, map[ms[0].id := ms[0].target]) else rows, ms[1..])
  }

  /** A table that refers to statistics after that: crossed off entries rename it. */
  function StatisticsAfter<K, D>(rows: seq<Row<K, D>>, ms: seq<Move>): seq<Row<K, D>>
    decreases |ms|
  {
    if ms == [] then rows
    else StatisticsAfter(if ms[0].Cross? then Renamed(rows, map[ms[0].id := ms[0].target]) else rows, ms[1..])
  }

  lemma {:induction false} DumpsAfterMore<K, D>(rows: seq<Row<K, D>>, ms: seq<Move>, mv: Move)
    ensures DumpsAfter(rows, ms + [mv]) ==
      if mv.Open? then Renamed(DumpsAfter(rows, ms), map[mv.id := mv.target]) else DumpsAfter(rows, ms)
    decreases |ms|
  {
    if ms == [] {
      assert (ms + [mv])[1..] == [];
    } else {
      assert (ms + [mv])[1..] == ms[1..] + [mv];
      DumpsAfterMore(if ms[0].Open? then Renamed(rows, map[ms[0].id := ms[0].target]) else rows, ms[1..], mv);
    }
  }

  lemma {:induction false} StatisticsAfterMore<K, D>(rows: seq<Row<K, D>>, ms: seq<Move>, mv: Move)
    ensures StatisticsAfter(rows, ms + [mv]) ==
      if mv.Cross? then Renamed(StatisticsAfter(rows, ms), map[mv.id := mv.target]) else StatisticsAfter(rows, ms)
    decreases |ms|
  {
    if ms == [] {
      assert (ms + [mv])[1..] == [];
    } else {
      assert (ms + [mv])[1..] == ms[1..] + [mv];
      StatisticsAfterMore(if ms[0].Cross? then Renamed(rows, map[ms[0].id := ms[0].target]) else rows, ms[1..], mv);
    }
  }

  /** A map as the loop starts with it. */
  ghost predicate Bounded(m: map<int, int>, unused: int) {
    forall k :: k in m ==> k <= unused && m[k] <= unused && m[k] != k
  }

  lemma BoundedNext(m: map<int, int>, unused: int, mv: Move)
    requires Bounded(m, unused) && Allowed(m, unused, mv)
    ensures Bounded(Next(m, mv), Used(unused, mv))
    ensures OneToOne(m) ==> OneToOne(Next(m, mv))
  {
    match mv {
      case Cross(id, target) =>
        EntryDone(m, id);
      case Open(id, target) =>
        if target in m.Values {
          var k := KeyOf(m, target);
        }
        SameTargets(m, id, target);
    }
  }

  // ------ what becomes of the dumps

  /** A dump keeps its id or gets a fresh one; and it keeps it if it was to keep it. */
  lemma {:induction false} StaysStale<K, D>(rows: seq<Row<K, D>>, m: map<int, int>, unused: int, ms: seq<Move>,
                                            m': map<int, int>, unused': int)
    requires Path(m, unused, ms, m', unused') && forall i :: 0 <= i < |rows| ==> rows[i].id <= unused
    ensures var r := DumpsAfter(rows, ms); |r| == |rows| && forall i :: 0 <= i < |rows| ==>
      && r[i] == rows[i].(id := r[i].id) && (r[i].id == rows[i].id || unused < r[i].id)
      && (rows[i].id !in m ==> r[i].id == rows[i].id)
    decreases |ms|
  {
    hide Stuck;
    if ms != [] {
      var next := if ms[0].Open? then Renamed(rows, map[ms[0].id := ms[0].target]) else rows;
      StaysStale(next, Next(m, ms[0]), Used(unused, ms[0]), ms[1..], m', unused');
    }
  }

  /** So the dumps end up renamed as asked exactly when nothing was asked of them: when the
      map sends each id in use to itself. */
  lemma DumpsRenamedIffIdentity<K, D>(m0: map<int, int>, rows: seq<Row<K, D>>, m: map<int, int>, unused: int,
                                      ms: seq<Move>, unused': int)
    requires Path(m, unused, ms, map[], unused') && Ids(rows) <= m0.Keys && m == map k | k in m0 && m0[k] != k :: m0[k]
    requires forall k :: k in m0 ==> k <= unused && m0[k] <= unused
    ensures DumpsAfter(rows, ms) == Renamed(rows, m0) <==> forall id :: id in Ids(rows) ==> m0[id] == id
  {
    forall i | 0 <= i < |rows|
      ensures rows[i].id in m0
    {
      assert rows[i].id in Ids(rows);
    }
    StaysStale(rows, m, unused, ms, map[], unused');
    var after, r := DumpsAfter(rows, ms), Renamed(rows, m0);
    forall i | 0 <= i < |rows|
      ensures after[i] == r[i] <==> m0[rows[i].id] == rows[i].id
    {
    }
    if after == r {
      forall id | id in Ids(rows)
        ensures m0[id] == id
      {
        var i := RowOf(rows, id);
        assert after[i] == r[i];
      }
    }
  }

  /** One dump that was to move from 1 to 2 stays at 1; the statistic 1 moves to 2 instead. */
  lemma DumpNotRenamed()
    ensures Path(map[1 := 2], 3, [Cross(1, 2)], map[], 3)
    ensures DumpsAfter([Row(1, (), "dump")], [Cross(1, 2)]) == [Row(1, (), "dump")]
    ensures StatisticsAfter([Row(1, (), "statistic")], [Cross(1, 2)]) == [Row(2, (), "statistic")]
  {
    assert map[1 := 2] - {1} == map[];
    assert [Cross(1, 2)][1..] == [];
  }

  // ------ what becomes of the statistics

  function Crossed(ms: seq<Move>): set<int> {
    set i | 0 <= i < |ms| && ms[i].Cross? :: ms[i].id
  }

  lemma CrossedFirst(ms: seq<Move>)
    requires ms != []
    ensures Crossed(ms) == (if ms[0].Cross? then {ms[0].id} else {}) + Crossed(ms[1..])
  {
    assert forall i :: 1 <= i < |ms| ==> ms[i] == ms[1..][i - 1];
  }

  function IdAfter(id: int, ms: seq<Move>): int
    decreases |ms|
  {
    if ms == [] then id else IdAfter(if ms[0] == Cross(id, ms[0].target) then ms[0].target else id, ms[1..])
  }

  lemma {:induction false} RowsAfter<K, D>(rows: seq<Row<K, D>>, ms: seq<Move>)
    ensures var r := StatisticsAfter(rows, ms);
      |r| == |rows| && forall i :: 0 <= i < |rows| ==> r[i] == rows[i].(id := IdAfter(rows[i].id, ms))
    decreases |ms|
  {
    if ms != [] {
      RowsAfter(if ms[0].Cross? then Renamed(rows, map[ms[0].id := ms[0].target]) else rows, ms[1..]);
    }
  }

  /** Only keys, and fresh ids, are ever crossed off. */
  lemma {:induction false} StaysPut(id: int, m: map<int, int>, unused: int, ms: seq<Move>,
                                    m': map<int, int>, unused': int)
    requires Path(m, unused, ms, m', unused') && id !in m && !(unused < id <= unused')
    ensures IdAfter(id, ms) == id && id !in Crossed(ms)
    decreases |ms|
  {
    hide Stuck;
    UnusedGrows(m, unused, ms, m', unused');
    if ms != [] {
      CrossedFirst(ms);
      UnusedGrows(Next(m, ms[0]), Used(unused, ms[0]), ms[1..], m', unused');
      StaysPut(id, Next(m, ms[0]), Used(unused, ms[0]), ms[1..], m', unused');
    }
  }

  lemma {:induction false} UnusedGrows(m: map<int, int>, unused: int, ms: seq<Move>, m': map<int, int>, unused': int)
    requires Path(m, unused, ms, m', unused')
    ensures unused <= unused'
    decreases |ms|
  {
    if ms != [] {
      UnusedGrows(Next(m, ms[0]), Used(unused, ms[0]), ms[1..], m', unused');
    }
  }

  /** An id that is crossed off moves, once and for all. */
  lemma {:induction false} MovesIffCrossed(id: int, m: map<int, int>, unused: int, ms: seq<Move>,
                                           m': map<int, int>, unused': int)
    requires Path(m, unused, ms, m', unused') && Bounded(m, unused)
    ensures IdAfter(id, ms) == id <==> id !in Crossed(ms)
    decreases |ms|
  {
    hide Stuck;
    if ms != [] {
      CrossedFirst(ms);
      BoundedNext(m, unused, ms[0]);
      if ms[0] == Cross(id, ms[0].target) {
        StaysPut(ms[0].target, Next(m, ms[0]), Used(unused, ms[0]), ms[1..], m', unused');
      } else {
        MovesIffCrossed(id, Next(m, ms[0]), Used(unused, ms[0]), ms[1..], m', unused');
      }
    }
  }

  /** In one run the statistics end where they were exactly when none of their ids is crossed
      off. */
  lemma UnchangedIff<K, D>(rows: seq<Row<K, D>>, m: map<int, int>, unused: int, ms: seq<Move>, unused': int)
    requires Path(m, unused, ms, map[], unused') && Bounded(m, unused)
    ensures StatisticsAfter(rows, ms) == rows <==> Ids(rows) !! Crossed(ms)
  {
    RowsAfter(rows, ms);
    var r := StatisticsAfter(rows, ms);
    forall i | 0 <= i < |rows|
      ensures r[i] == rows[i] <==> rows[i].id !in Crossed(ms)
    {
      MovesIffCrossed(rows[i].id, m, unused, ms, map[], unused');
    }
    if r == rows {
      forall id | id in Ids(rows)
        ensures id !in Crossed(ms)
      {
        var i := RowOf(rows, id);
        assert r[i] == rows[i];
      }
    } else {
      var i :| 0 <= i < |rows| && r[i] != rows[i];
      assert rows[i].id in Ids(rows);
    }
  }

  // ------ fresh ids: as many as the map has cycles

  /** Disjoint sets of keys that the map keeps to themselves. */
  ghost predicate Family(m: map<int, int>, cs: seq<set<int>>) {
    && (forall i :: 0 <= i < |cs| ==> cs[i] != {} && cs[i] <= m.Keys && forall k :: k in cs[i] ==> m[k] in cs[i])
    && (forall i, j :: 0 <= i < j < |cs| ==> cs[i] !! cs[j])
  }

  ghost predicate HasCycles(m: map<int, int>, n: nat) {
    exists cs :: Family(m, cs) && |cs| == n
  }

  lemma CyclesCrossed(m: map<int, int>, k: int, n: nat)
    requires k in m && m[k] !in m
    ensures HasCycles(m, n) <==> HasCycles(m - {k}, n)
  {
    var m' := m - {k};
    if HasCycles(m, n) {
      var cs :| Family(m, cs) && |cs| == n;
      assert Family(m', cs);
    }
    if HasCycles(m', n) {
      var cs :| Family(m', cs) && |cs| == n;
      assert Family(m, cs);
    }
  }

  /** A map permutes what it keeps to itself. */
  lemma Permuted(m: map<int, int>, c: set<int>, x: int) returns (y: int)
    requires OneToOne(m) && c <= m.Keys && (forall k :: k in c ==> m[k] in c) && x in c
    ensures y in c && m[y] == x
  {
    var r := map k | k in c :: m[k];
    assert r.Keys == c && forall k :: k in r ==> r[k] == m[k];
    assert forall k :: k in r ==> r[k] in r;
    InAPermutation(r, x);
    y := KeyOf(r, x);
  }

  lemma KeptIsValue(m: map<int, int>, c: set<int>, x: int)
    requires OneToOne(m) && c <= m.Keys && (forall k :: k in c ==> m[k] in c) && x in c
    ensures x in m.Values
  {
    var y := Permuted(m, c, x);
  }

  lemma CyclesOpened(m: map<int, int>, k: int, id: int, n: nat)
    requires OneToOne(m) && Stuck(m) && k in m && id !in m && id !in m.Values
    ensures HasCycles(m, n) <==> n == 0 || HasCycles(Opened(m, k, id), n - 1)
  {
    hide OneToOne, Stuck;
    if n == 0 {
      assert Family(m, []);
    } else {
      if HasCycles(m, n) {
        var cs :| Family(m, cs) && |cs| == n;
        FewerCycles(m, k, id, cs);
      }
      if HasCycles(Opened(m, k, id), n - 1) {
        var cs :| Family(Opened(m, k, id), cs) && |cs| == n - 1;
        MoreCycles(m, k, id, cs);
      }
    }
  }

  lemma FewerCycles(m: map<int, int>, k: int, id: int, cs: seq<set<int>>)
    requires Family(m, cs) && cs != [] && k in m && id !in m
    ensures HasCycles(Opened(m, k, id), |cs| - 1)
  {
    var n := |cs|;
    var i := if exists i :: 0 <= i < n && k in cs[i] then (var i :| 0 <= i < n && k in cs[i]; i) else 0;
    var rest := cs[..i] + cs[i + 1..];
    assert forall j :: 0 <= j < n - 1 ==> rest[j] == cs[if j < i then j else j + 1];
    assert Family(Opened(m, k, id), rest);
  }

  lemma MoreCycles(m: map<int, int>, k: int, id: int, cs: seq<set<int>>)
    requires OneToOne(m) && Stuck(m) && k in m && id !in m && id !in m.Values && Family(Opened(m, k, id), cs)
    ensures HasCycles(m, |cs| + 1)
  {
    hide OneToOne;
    var m' := Opened(m, k, id);
    SameTargets(m, k, id);
    forall i | 0 <= i < |cs|
      ensures id !in cs[i]
    {
      if id in cs[i] {
        KeptIsValue(m', cs[i], id);
      }
    }
    var d := set x | x in m && forall i :: 0 <= i < |cs| ==> x !in cs[i];
    assert k in d;
    forall x | x in d
      ensures m[x] in d
    {
      forall i | 0 <= i < |cs|
        ensures m[x] !in cs[i]
      {
        if m[x] in cs[i] {
          var y := Permuted(m', cs[i], m[x]);
          SamePreimage(m, x, y);
        }
      }
    }
    FamilyWith(m, k, id, cs, d);
  }

  lemma FamilyWith(m: map<int, int>, k: int, id: int, cs: seq<set<int>>, d: set<int>)
    requires k in m && Family(Opened(m, k, id), cs) && forall i :: 0 <= i < |cs| ==> id !in cs[i] && cs[i] !! d
    requires d != {} && d <= m.Keys && forall x :: x in d ==> m[x] in d
    ensures HasCycles(m, |cs| + 1)
  {
    var all := cs + [d];
    assert forall i :: 0 <= i < |all| ==> all[i] == if i < |cs| then cs[i] else d;
    assert Family(m, all);
  }

  lemma SamePreimage(m: map<int, int>, x: int, y: int)
    requires OneToOne(m) && x in m && y in m && m[x] == m[y]
    ensures x == y
  {
  }

  /** A run takes as many fresh ids as there are cycles. */
  lemma {:induction false} FreshIds(m: map<int, int>, unused: int, ms: seq<Move>, unused': int, n: nat)
    requires Path(m, unused, ms, map[], unused') && Bounded(m, unused) && OneToOne(m)
    ensures HasCycles(m, n) <==> n <= unused' - unused
    decreases |ms|
  {
    hide OneToOne, Stuck, HasCycles;
    UnusedGrows(m, unused, ms, map[], unused');
    if ms == [] {
      NoCycles(n);
    } else {
      BoundedNext(m, unused, ms[0]);
      UnusedGrows(Next(m, ms[0]), Used(unused, ms[0]), ms[1..], map[], unused');
      match ms[0] {
        case Cross(id, target) =>
          FreshIds(m - {id}, unused, ms[1..], unused', n);
          CyclesCrossed(m, id, n);
        case Open(id, target) =>
          NotAValue(m, unused, target);
          CyclesOpened(m, id, target, n);
          if n > 0 { FreshIds(Opened(m, id, target), unused + 1, ms[1..], unused', n - 1); }
      }
    }
  }

  lemma ElementOf<T>(s: set<T>) returns (x: T)
    requires s != {}
    ensures x in s
  {
    x :| x in s;
  }

  lemma FamilyHasKeys(m: map<int, int>, cs: seq<set<int>>)
    requires Family(m, cs)
    ensures cs != [] ==> m.Keys != {}
  {
    if cs != [] {
      var x := ElementOf(cs[0]);
      assert x in m.Keys;
    }
  }

  lemma NoCycles(n: nat)
    ensures HasCycles(map[], n) <==> n == 0
  {
    assert Family(map[], []);
    if HasCycles(map[], n) {
      var cs :| Family(map[], cs) && |cs| == n;
      FamilyHasKeys(map[], cs);
    }
  }

  lemma NotAValue(m: map<int, int>, unused: int, id: int)
    requires Bounded(m, unused) && id > unused
    ensures id !in m && id !in m.Values
  {
    if id in m.Values {
      var k := KeyOf(m, id);
    }
  }

  /** A key that is no target, as a fresh one, is never opened, so it is crossed off. */
  lemma {:induction false} NoTargetCrossed(m: map<int, int>, unused: int, ms: seq<Move>, unused': int, k: int)
    requires Path(m, unused, ms, map[], unused') && Bounded(m, unused) && OneToOne(m) && k in m && k !in m.Values
    ensures k in Crossed(ms)
    decreases |ms|
  {
    hide OneToOne, Stuck;
    CrossedFirst(ms);
    match ms[0] {
      case Cross(id, target) =>
        if id != k {
          BoundedNext(m, unused, ms[0]);
          FewerValues(m, id);
          NoTargetCrossed(m - {id}, unused, ms[1..], unused', k);
        }
      case Open(id, target) =>
        InAPermutation(m, k);
    }
  }

  lemma FewerValues(m: map<int, int>, id: int)
    ensures (m - {id}).Values <= m.Values
  {
    forall v | v in (m - {id}).Values
      ensures v in m.Values
    {
      var k := KeyOf(m - {id}, v);
      assert m[k] == v;
    }
  }

  lemma {:induction false} FreshCrossed(m: map<int, int>, unused: int, ms: seq<Move>, unused': int, f: int)
    requires Path(m, unused, ms, map[], unused') && Bounded(m, unused) && OneToOne(m) && unused < f <= unused'
    ensures f in Crossed(ms)
    decreases |ms|
  {
    hide OneToOne, Stuck;
    CrossedFirst(ms);
    BoundedNext(m, unused, ms[0]);
    match ms[0] {
      case Cross(id, target) =>
        FreshCrossed(m - {id}, unused, ms[1..], unused', f);
      case Open(id, target) =>
        if f == target {
          NotAValue(m, unused, target);
          SameTargets(m, id, target);
          NoTargetCrossed(Opened(m, id, target), unused + 1, ms[1..], unused', f);
        } else {
          FreshCrossed(Opened(m, id, target), unused + 1, ms[1..], unused', f);
        }
    }
  }

  // ------ over all runs

  /** A run that crosses off k, if k is a key, exists. */
  lemma {:induction false} RunThrough(m: map<int, int>, unused: int, k: int) returns (ms: seq<Move>, unused': int)
    requires Bounded(m, unused) && OneToOne(m)
    ensures Path(m, unused, ms, map[], unused') && (k in m ==> k in Crossed(ms))
    decreases |m|, |Both(m)|
  {
    hide OneToOne, Stuck;
    if m == map[] {
      ms, unused' := [], unused;
    } else {
      var mv := MoveBeside(m, unused, k);
      BoundedNext(m, unused, mv);
      match mv {
        case Cross(id, target) =>
          EntryDone(m, id);
        case Open(id, target) =>
          NotAValue(m, unused, target);
          CycleOpened(m, id, target);
      }
      var rest;
      rest, unused' := RunThrough(Next(m, mv), Used(unused, mv), k);
      ms := [mv] + rest;
      assert ms[1..] == rest;
      CrossedFirst(ms);
    }
  }

  /** A move that crosses off k, or leaves it a key. */
  lemma MoveBeside(m: map<int, int>, unused: int, k: int) returns (mv: Move)
    requires Bounded(m, unused) && m != map[]
    ensures Allowed(m, unused, mv) && (mv.id != k || mv.Cross?)
  {
    if Stuck(m) {
      var x := SomeKey(m);
      var id := if x == k then m[x] else x;
      mv := Open(id, unused + 1);
    } else {
      var id := FreeKey(m);
      mv := Cross(id, m[id]);
    }
  }

  lemma FreeKey<K>(m: map<K, K>) returns (k: K)
    requires !Stuck(m)
    ensures k in m && m[k] !in m
  {
    k :| k in m && m[k] !in m;
  }

  lemma SomeKey<K, V>(m: map<K, V>) returns (k: K)
    requires m != map[]
    ensures k in m
  {
    assert m.Keys != {};
    k :| k in m.Keys;
  }

  /** Does the loop that was called for dumps rename this statistic, in some run? */
  ghost predicate Endangered(m: map<int, int>, unused: int, id: int) {
    id in m || (id > unused && HasCycles(m, id - unused))
  }

  /** The statistics survive every run exactly when none of their ids is one that a dump is to
      leave, or one of the fresh ids, of which there are as many as the map has cycles. */
  lemma StatisticsSurviveIff<K, D>(rows: seq<Row<K, D>>, m: map<int, int>, unused: int)
    requires Bounded(m, unused) && OneToOne(m)
    ensures (forall ms, unused' | Path(m, unused, ms, map[], unused') :: StatisticsAfter(rows, ms) == rows)
      <==> forall id | id in Ids(rows) :: !Endangered(m, unused, id)
  {
    hide OneToOne, HasCycles, Path, Bounded;
    if forall id | id in Ids(rows) :: !Endangered(m, unused, id) {
      forall ms, unused' | Path(m, unused, ms, map[], unused')
        ensures StatisticsAfter(rows, ms) == rows
      {
        SafeIds(rows, m, unused, ms, unused');
      }
    } else {
      var id :| id in Ids(rows) && Endangered(m, unused, id);
      var ms, unused' := RunThrough(m, unused, id);
      if id !in m {
        FreshIds(m, unused, ms, unused', id - unused);
        FreshCrossed(m, unused, ms, unused', id);
      }
      UnchangedIff(rows, m, unused, ms, unused');
      assert StatisticsAfter(rows, ms) != rows;
    }
  }

  lemma SafeIds<K, D>(rows: seq<Row<K, D>>, m: map<int, int>, unused: int, ms: seq<Move>, unused': int)
    requires Path(m, unused, ms, map[], unused') && Bounded(m, unused) && OneToOne(m)
    requires forall id | id in Ids(rows) :: !Endangered(m, unused, id)
    ensures StatisticsAfter(rows, ms) == rows
  {
    hide OneToOne, HasCycles, Path, Bounded;
    UnchangedIff(rows, m, unused, ms, unused');
    forall id | id in Ids(rows)
      ensures id !in Crossed(ms)
    {
      if id > unused { FreshIds(m, unused, ms, unused', id - unused); }
      StaysPut(id, m, unused, ms, map[], unused');
    }
  }

  lemma {:induction false} PathConcat(m: map<int, int>, unused: int, ms: seq<Move>, m': map<int, int>, unused': int,
                                      ms': seq<Move>, m'': map<int, int>, unused'': int)
    requires Path(m, unused, ms, m', unused') && Path(m', unused', ms', m'', unused'')
    ensures Path(m, unused, ms + ms', m'', unused'')
    decreases |ms|
  {
    if ms == [] {
      assert ms + ms' == ms';
    } else {
      assert (ms + ms')[1..] == ms[1..] + ms';
      PathConcat(Next(m, ms[0]), Used(unused, ms[0]), ms[1..], m', unused', ms', m'', unused'');
    }
  }

  lemma {:induction false} PathKeeps(m: map<int, int>, unused: int, ms: seq<Move>, m': map<int, int>, unused': int)
    requires Path(m, unused, ms, m', unused') && Bounded(m, unused) && OneToOne(m)
    ensures Bounded(m', unused') && OneToOne(m')
    decreases |ms|
  {
    if ms != [] {
      BoundedNext(m, unused, ms[0]);
      PathKeeps(Next(m, ms[0]), Used(unused, ms[0]), ms[1..], m', unused');
    }
  }

  /** At no time is an id crossed off that is not endangered. */
  lemma NextCrossed(m: map<int, int>, unused: int, ms: seq<Move>, m': map<int, int>, unused': int, mv: Move)
    requires Path(m, unused, ms, m', unused') && Bounded(m, unused) && OneToOne(m)
    requires Allowed(m', unused', mv) && mv.Cross?
    ensures Endangered(m, unused, mv.id)
  {
    hide OneToOne, HasCycles, Path, Bounded, Stuck;
    PathKeeps(m, unused, ms, m', unused');
    PathMore(m, unused, ms, m', unused', mv);
    BoundedNext(m', unused', mv);
    var rest, last := RunThrough(Next(m', mv), Used(unused', mv), 0);
    PathConcat(m, unused, ms + [mv], Next(m', mv), Used(unused', mv), rest, map[], last);
    var all := ms + [mv] + rest;
    assert all[|ms|] == mv;
    assert mv.id in Crossed(all);
    if !Endangered(m, unused, mv.id) {
      if mv.id > unused { FreshIds(m, unused, all, last, mv.id - unused); }
      StaysPut(mv.id, m, unused, all, map[], last);
    }
  }

  lemma NotInTable<K, D>(rows: seq<Row<K, D>>, id: int, target: int)
    requires id !in Ids(rows)
    ensures Renamed(rows, map[id := target]) == rows
  {
    var r := Renamed(rows, map[id := target]);
    forall i | 0 <= i < |rows|
      ensures r[i] == rows[i]
    {
      assert rows[i].id in Ids(rows);
    }
  }

  lemma UniqueFresh<K, D>(rows: seq<Row<K, D>>, id: int, target: int)
    requires Unique(rows) && (forall x :: x in Ids(rows) ==> x < target)
    ensures Unique(Renamed(rows, map[id := target]))
    ensures forall x :: x in Ids(Renamed(rows, map[id := target])) ==> x <= target
  {
    var r := Renamed(rows, map[id := target]);
    forall i | 0 <= i < |r|
      ensures r[i].id <= target && rows[i].id < target
    {
      assert rows[i].id in Ids(rows);
    }
  }

  lemma DumpStart<K, D>(m0: map<int, int>, m: map<int, int>, unused: int, rows: seq<Row<K, D>>)
    requires m == map k | k in m0 && m0[k] != k :: m0[k]
    requires (forall k :: k in m0.Values + m0.Keys ==> k < unused) && OneToOne(m0) && Ids(rows) <= m0.Keys
    ensures Path(m, unused, [], m, unused) && Bounded(m, unused) && OneToOne(m)
    ensures forall x :: x in Ids(rows) ==> x <= unused
  {
    forall k | k in m0
      ensures k < unused && m0[k] < unused
    {
      assert k in m0.Values + m0.Keys && m0[k] in m0.Values + m0.Keys;
    }
  }

  lemma NothingYet<K, D>(rows: seq<Row<K, D>>)
    ensures StatisticsAfter(rows, []) == rows && DumpsAfter(rows, []) == rows
  {
  }
}
