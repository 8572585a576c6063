/** Matching the statistics and dumps of many node databases against lists of global ones. */
module Matching {
  import opened Renaming
  import opened Dumps
  import opened Database

  type Statistics = seq<Row<(), Ident>>

  /** Ids and identities are both unique. */
  ghost predicate Canonical(objects: Statistics) {
    forall i, j :: 0 <= i < j < |objects| ==> objects[i].id != objects[j].id && objects[i].data != objects[j].data
  }

  /** The list gives this identity this id. */
  ghost predicate Known(objects: Statistics, ident: Ident, id: int) {
    exists i :: 0 <= i < |objects| && objects[i].data == ident && objects[i].id == id
  }

  ghost predicate AllKnown(objects: Statistics, rows: Statistics) {
    forall i :: 0 <= i < |rows| ==> Known(objects, rows[i].data, rows[i].id)
  }

  /** The ids of two statistics, from whichever databases, are equal exactly when the
      statistics are the same. */
  lemma SameIdSameStatistic(objects: Statistics, a: Ident, idA: int, b: Ident, idB: int)
    requires Canonical(objects) && Known(objects, a, idA) && Known(objects, b, idB)
    ensures idA == idB <==> a == b
  {
    var i :| 0 <= i < |objects| && objects[i].data == a && objects[i].id == idA;
    var j :| 0 <= j < |objects| && objects[j].data == b && objects[j].id == idB;
    assert i < j || j < i || i == j;
  }

  /** An id once given stays. */
  lemma KnownStays(objects: Statistics, objects': Statistics, ident: Ident, id: int)
    requires objects <= objects' && Known(objects, ident, id)
    ensures Known(objects', ident, id)
  {
    var j :| 0 <= j < |objects| && objects[j].data == ident && objects[j].id == id;
    assert objects'[j] == objects[j];
  }

  class GlobalSpace {
    var objects: Statistics

    constructor ()
      ensures objects == []
    {
      objects := [];
    }

    /** The id of the global object that is the same, a new one under a fresh id if there is
        none. */
    method MatchObject(localObj: Row<(), Ident>) returns (id: int)
      requires Canonical(objects)
      modifies this
      ensures Canonical(objects) && Known(objects, localObj.data, id)
      ensures objects == old(objects) || objects == old(objects) + [Row(id, (), localObj.data)]
    {
      var lastId, i := 0, 0;
      while i < |objects|
        invariant 0 <= i <= |objects|
        invariant forall j :: 0 <= j < i ==> objects[j].id <= lastId && objects[j].data != localObj.data
      {
        if objects[i].id > lastId {
          lastId := objects[i].id;
        }
        if objects[i].data == localObj.data {
          return objects[i].id;
        }
        i := i + 1;
      }
      id := lastId + 1;
      objects := objects + [Row(id, (), localObj.data)];
      assert objects[|objects| - 1].id == id;
    }

    /** For each local object the id of the same global object. */
    method MatchObjectsWithGlobalSpace(localObjects: Statistics) returns (idTransferMap: map<int, int>)
      requires Canonical(objects) && Unique(localObjects)
      modifies this
      ensures Canonical(objects) && old(objects) <= objects
      ensures idTransferMap.Keys == Ids(localObjects)
      ensures forall i :: 0 <= i < |localObjects| ==>
        Known(objects, localObjects[i].data, idTransferMap[localObjects[i].id])
    {
      hide Canonical, Known;
      idTransferMap := map[];
      var i := 0;
      while i < |localObjects|
        invariant 0 <= i <= |localObjects| && Canonical(objects) && old(objects) <= objects
        invariant idTransferMap.Keys == set j | 0 <= j < i :: localObjects[j].id
        invariant forall j :: 0 <= j < i ==> Known(objects, localObjects[j].data, idTransferMap[localObjects[j].id])
      {
        ghost var before := objects;
        var id := MatchObject(localObjects[i]);
        forall j | 0 <= j < i
          ensures Known(objects, localObjects[j].data, idTransferMap[localObjects[j].id])
        {
          KnownStays(before, objects, localObjects[j].data, idTransferMap[localObjects[j].id]);
        }
        DistinctIds(localObjects, i);
        idTransferMap := idTransferMap[localObjects[i].id := id];
        i := i + 1;
      }
    }
  }

  lemma DistinctIds(rows: Statistics, i: nat)
    requires Unique(rows) && i < |rows|
    ensures forall j :: 0 <= j < i ==> rows[j].id != rows[i].id
  {
    forall j | 0 <= j < i
      ensures rows[j].id != rows[i].id
    {
      assert rows[j].key == () == rows[i].key;
    }
  }

  /** The map is one-to-one exactly when no two local statistics are the same. */
  lemma OneToOneIffDistinct(objects: Statistics, local: Statistics, m: map<int, int>)
    requires Canonical(objects) && Unique(local) && m.Keys == Ids(local)
    requires forall i :: 0 <= i < |local| ==> Known(objects, local[i].data, m[local[i].id])
    ensures OneToOne(m) <==> forall i, j :: 0 <= i < j < |local| ==> local[i].data != local[j].data
  {
    hide Known, Canonical;
    forall i, j | 0 <= i < |local| && 0 <= j < |local|
      ensures m[local[i].id] == m[local[j].id] <==> local[i].data == local[j].data
    {
      SameIdSameStatistic(objects, local[i].data, m[local[i].id], local[j].data, m[local[j].id]);
    }
    if forall i, j :: 0 <= i < j < |local| ==> local[i].data != local[j].data {
      forall a, b | a in m && b in m && m[a] == m[b]
        ensures a == b
      {
        var i := RowOf(local, a);
        var j := RowOf(local, b);
      }
    }
    if OneToOne(m) {
      forall i, j | 0 <= i < j < |local|
        ensures local[i].data != local[j].data
      {
        DistinctIds(local, j);
        assert local[i].id in m && local[j].id in m;
      }
    }
  }

  /** The first half: each statistic gets its global id, and every row that referred to a
      statistic still refers to the same one. */
  method PrepareStatistics<T(==), V>(hostDB: NodeDatabase<T, V>, globals: GlobalSpace) returns (ghost m: map<int, int>)
    requires hostDB.Valid() && Canonical(globals.objects) && Distinct(hostDB.statistics)
    modifies hostDB`measurements, hostDB`histograms, hostDB`statistics, globals
    ensures hostDB.Valid() && Canonical(globals.objects) && old(globals.objects) <= globals.objects
    ensures OneToOne(m) && m.Keys == Ids(old(hostDB.statistics))
    ensures hostDB.statistics == Renamed(old(hostDB.statistics), m) && AllKnown(globals.objects, hostDB.statistics)
    ensures hostDB.measurements == Renamed(old(hostDB.measurements), m)
    ensures hostDB.histograms == Renamed(old(hostDB.histograms), m)
  {
    hide Canonical, Known, OneToOne, FreeTargets, AllAfter;
    var statistics := hostDB.statistics;
    var statIdTransferMap := globals.MatchObjectsWithGlobalSpace(statistics);
    m := statIdTransferMap;
    OneToOneIffDistinct(globals.objects, statistics, m);
    if statIdTransferMap.Keys != {} {
      ghost var moves;
      var ok;
      ok, moves := hostDB.ReplaceStatisticIDs(statIdTransferMap);
    } else {
      NothingToRename(hostDB, m);
    }
    forall i | 0 <= i < |statistics|
      ensures Known(globals.objects, hostDB.statistics[i].data, hostDB.statistics[i].id)
    {
      assert statistics[i].id in Ids(statistics);
    }
  }

  /** No two rows are the same object. */
  ghost predicate Distinct(rows: Statistics) {
    forall i, j :: 0 <= i < j < |rows| ==> rows[i].data != rows[j].data
  }

  /** Both halves.  After the first the statistics, then s1, have their global ids.  The second
      is meant for the dumps, and moves statistics instead; they are still right if none of
      their ids is endangered by the dumps' map d. */
  method PrepareHostDbIDs<T(==), V>(hostDB: NodeDatabase<T, V>, globals: GlobalSpace, globalDumps: GlobalSpace)
    returns (ok: bool, ghost m: map<int, int>, ghost s1: Statistics, ghost d: map<int, int>, ghost unused: int,
             ghost moves: seq<Move>)
    requires hostDB.Valid() && Canonical(globals.objects) && Distinct(hostDB.statistics)
    requires hostDB.DumpsValid() && Canonical(globalDumps.objects) && Distinct(hostDB.dumps) && globals != globalDumps
    modifies hostDB, globals, globalDumps
    ensures Canonical(globals.objects) && old(globals.objects) <= globals.objects
    ensures Canonical(globalDumps.objects) && old(globalDumps.objects) <= globalDumps.objects
    ensures OneToOne(m) && m.Keys == Ids(old(hostDB.statistics))
    ensures s1 == Renamed(old(hostDB.statistics), m) && AllKnown(globals.objects, s1)
    ensures forall i :: 0 <= i < |old(hostDB.dumps)| ==>
      Known(globalDumps.objects, old(hostDB.dumps)[i].data, Apply(d, old(hostDB.dumps)[i].id))
    ensures Bounded(d, unused) && OneToOne(d)
    ensures ok ==> exists last :: Path(d, unused, moves, map[], last)
    ensures ok ==> hostDB.statistics == StatisticsAfter(s1, moves)
    ensures ok ==> hostDB.measurements == StatisticsAfter(Renamed(old(hostDB.measurements), m), moves)
    ensures ok ==> hostDB.histograms == StatisticsAfter(Renamed(old(hostDB.histograms), m), moves)
    ensures ok ==> hostDB.dumps == DumpsAfter(old(hostDB.dumps), moves)
    ensures (forall id :: id in Ids(s1) ==> !Endangered(d, unused, id)) ==>
      ok && hostDB.Valid() && hostDB.statistics == s1 && hostDB.measurements == Renamed(old(hostDB.measurements), m) &&
      hostDB.histograms == Renamed(old(hostDB.histograms), m)
  {
    hide Canonical, Known, OneToOne, Endangered, StatisticsAfter, DumpsAfter, NodeDatabase.Valid,
      NodeDatabase.DumpsValid, Unique;
    m := PrepareStatistics(hostDB, globals);
    s1 := hostDB.statistics;
    var dumps := hostDB.dumps;
    UniqueDumps(hostDB);
    var dumpIdTransferMap := globalDumps.MatchObjectsWithGlobalSpace(dumps);
    OneToOneIffDistinct(globalDumps.objects, dumps, dumpIdTransferMap);
    if dumpIdTransferMap.Keys != {} {
      ok, moves, d, unused := hostDB.ReplaceDumpIDs(dumpIdTransferMap);
      DumpStart(dumpIdTransferMap, d, unused, dumps);
      TargetsKnown(globalDumps.objects, dumps, dumpIdTransferMap, d);
    } else {
      ok, moves, d, unused := true, [], map[], 0;
      assert OneToOne(d) && Bounded(d, 0) && Ids(dumps) == {};
      NoIds(dumps);
      assert Path(d, unused, moves, map[], 0);
      NothingYet(hostDB.statistics);
      NothingYet(hostDB.measurements);
      NothingYet(hostDB.histograms);
      NothingYet(hostDB.dumps);
    }
  }

  lemma TargetsKnown(objects: Statistics, rows: Statistics, m0: map<int, int>, m: map<int, int>)
    requires m == (map k | k in m0 && m0[k] != k :: m0[k]) && m0.Keys == Ids(rows)
    requires forall i :: 0 <= i < |rows| ==> Known(objects, rows[i].data, m0[rows[i].id])
    ensures forall i :: 0 <= i < |rows| ==> Known(objects, rows[i].data, Apply(m, rows[i].id))
  {
    hide Known;
    forall i | 0 <= i < |rows|
      ensures Apply(m, rows[i].id) == m0[rows[i].id]
    {
      assert rows[i].id in Ids(rows);
    }
  }

  lemma UniqueDumps<T, V>(db: NodeDatabase<T, V>)
    requires db.DumpsValid()
    ensures Unique(db.dumps)
  {
  }

  /** Only with their own ids are these statistics known. */
  lemma KnownOnlyByOwnId(objects: Statistics, a: Statistics, b: Statistics)
    requires Canonical(objects) && AllKnown(objects, a) && |b| == |a|
    requires forall i :: 0 <= i < |a| ==> b[i] == a[i].(id := b[i].id)
    ensures AllKnown(objects, b) <==> b == a
  {
    hide Known, Canonical;
    if AllKnown(objects, b) {
      forall i | 0 <= i < |a|
        ensures b[i] == a[i]
      {
        SameIdSameStatistic(objects, a[i].data, a[i].id, b[i].data, b[i].id);
      }
    }
  }

  /** After renaming the dumps the statistics still have their global ids, whatever the choices
      of the loop, exactly when none of their ids is endangered by the dumps' map. */
  lemma GlobalIdsSurviveIff(objects: Statistics, s1: Statistics, d: map<int, int>, unused: int)
    requires Canonical(objects) && AllKnown(objects, s1) && Bounded(d, unused) && OneToOne(d)
    ensures (forall ms, last | Path(d, unused, ms, map[], last) :: AllKnown(objects, StatisticsAfter(s1, ms)))
      <==> forall id | id in Ids(s1) :: !Endangered(d, unused, id)
  {
    hide Known, AllKnown, Canonical, OneToOne, Path, Bounded, Endangered;
    forall ms, last | Path(d, unused, ms, map[], last)
      ensures AllKnown(objects, StatisticsAfter(s1, ms)) <==> StatisticsAfter(s1, ms) == s1
    {
      RowsAfter(s1, ms);
      KnownOnlyByOwnId(objects, s1, StatisticsAfter(s1, ms));
    }
    StatisticsSurviveIff(s1, d, unused);
  }

  /** The one statistic has its global id 1; a dump is to move from 1 to 2, and takes the
      statistic with it. */
  lemma GlobalIdLost(x: Ident)
    ensures var objects := [Row(1, (), x)];
      && Canonical(objects) && AllKnown(objects, objects) && Path(map[1 := 2], 3, [Cross(1, 2)], map[], 3)
      && !AllKnown(objects, StatisticsAfter(objects, [Cross(1, 2)]))
  {
    DumpNotRenamed();
    var objects := [Row(1, (), x)];
    assert objects[0].data == x && objects[0].id == 1;
    assert [Cross(1, 2)][1..] == [];
    assert StatisticsAfter(objects, [Cross(1, 2)]) == [Row(2, (), x)];
    assert !Known(objects, x, 2);
    assert [Row(2, (), x)][0].id == 2;
  }

  lemma NothingToRename<T, V>(db: NodeDatabase<T, V>, m: map<int, int>)
    requires db.Valid() && Ids(db.statistics) == {}
    ensures Renamed(db.measurements, m) == db.measurements == [] && Renamed(db.histograms, m) == db.histograms == []
    ensures Renamed(db.statistics, m) == db.statistics == []
  {
    NoIds(db.measurements);
    NoIds(db.histograms);
    NoIds(db.statistics);
  }

  lemma NoIds<K, D>(rows: seq<Row<K, D>>)
    ensures Ids(rows) <= {} ==> rows == []
  {
    if rows != [] { assert rows[0].id in Ids(rows); }
  }
}
