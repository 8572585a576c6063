/** The database of one node, and the renaming of the ids in it. */
module Database {
  import opened Renaming
  import opened Dumps

  /** The tables that refer to a statistic or a dump by its id.  Time and Values stand for the
      columns that a renaming leaves alone. */
  class NodeDatabase<Time(==), Values> {
    var measurements: seq<Row<Time, Values>>
    var histograms: seq<Row<(Time, int), Values>>
    var statistics: seq<Row<(), Ident>>
    var dumps: seq<Row<(), Ident>>
    var dumpData: seq<Row<Time, Values>>

    constructor (measurements: seq<Row<Time, Values>>, histograms: seq<Row<(Time, int), Values>>,
                 statistics: seq<Row<(), Ident>>, dumps: seq<Row<(), Ident>>, dumpData: seq<Row<Time, Values>>)
      ensures this.measurements == measurements && this.histograms == histograms && this.statistics == statistics
      ensures this.dumps == dumps && this.dumpData == dumpData
    {
      this.measurements := measurements;
      this.histograms := histograms;
      this.statistics := statistics;
      this.dumps := dumps;
      this.dumpData := dumpData;
    }

    /** The primary keys hold, and only known statistics are referred to. */
    ghost predicate Valid()
      reads this`measurements, this`histograms, this`statistics
    {
      && Unique(measurements) && Unique(histograms) && Unique(statistics)
      && Ids(measurements) <= Ids(statistics) && Ids(histograms) <= Ids(statistics)
    }

    /** The same for dumps. */
    ghost predicate DumpsValid()
      reads this`dumps, this`dumpData
    {
      Unique(dumps) && Unique(dumpData) && Ids(dumpData) <= Ids(dumps)
    }

    /** Renames one id in all three tables; fails when that would violate a primary key. */
    method ReplaceSingleStatisticID(oldID: int, newID: int) returns (ok: bool)
      modifies this`measurements, this`histograms, this`statistics
      ensures ok <==>
        Unique(Renamed(old(measurements), map[oldID := newID])) && Unique(Renamed(old(histograms), map[oldID := newID]))
                      && Unique(Renamed(old(statistics), map[oldID := newID]))
      ensures ok ==> measurements == Renamed(old(measurements), map[oldID := newID])
      ensures ok ==> histograms == Renamed(old(histograms), map[oldID := newID])
      ensures ok ==> statistics == Renamed(old(statistics), map[oldID := newID])
    {
      ok := false;
      if !Unique(Renamed(measurements, map[oldID := newID])) {
        return;
      }
      measurements := Renamed(measurements, map[oldID := newID]);
      if !Unique(Renamed(histograms, map[oldID := newID])) {
        return;
      }
      histograms := Renamed(histograms, map[oldID := newID]);
      if !Unique(Renamed(statistics, map[oldID := newID])) {
        return;
      }
      statistics := Renamed(statistics, map[oldID := newID]);
      ok := true;
    }

    /** The same for a dump. */
    method ReplaceSingleDumpID(oldID: int, newID: int) returns (ok: bool)
      modifies this`dumps, this`dumpData
      ensures ok <==>
        Unique(Renamed(old(dumpData), map[oldID := newID])) && Unique(Renamed(old(dumps), map[oldID := newID]))
      ensures ok ==>
        dumpData == Renamed(old(dumpData), map[oldID := newID]) && dumps == Renamed(old(dumps), map[oldID := newID])
    {
      ok := false;
      if !Unique(Renamed(dumpData, map[oldID := newID])) {
        return;
      }
      dumpData := Renamed(dumpData, map[oldID := newID]);
      if !Unique(Renamed(dumps, map[oldID := newID])) {
        return;
      }
      dumps := Renamed(dumps, map[oldID := newID]);
      ok := true;
    }

    /** All tables follow the renaming m0 since the state recorded in was. */
    ghost predicate AllFollow(m0: map<int, int>, wasM: seq<Row<Time, Values>>, wasH: seq<Row<(Time, int), Values>>,
                              wasS: seq<Row<(), Ident>>, m: map<int, int>, unused: int)
      reads this`measurements, this`histograms, this`statistics
    {
      && Follows(m0, wasM, m, measurements, unused) && Follows(m0, wasH, m, histograms, unused)
      && Follows(m0, wasS, m, statistics, unused)
    }

    /** Renames statistic ids by the map, one at a time, never to an id in use.  For a map that
        covers the ids and is one-to-one this ends, and every row has moved to its own image
        as if all had moved at once. */
    method ReplaceStatisticIDs(transferMap: map<int, int>) returns (ok: bool, ghost moves: seq<Move>)
      requires Valid() && transferMap.Keys != {} && Ids(statistics) <= transferMap.Keys && OneToOne(transferMap)
      modifies this`measurements, this`histograms, this`statistics
      ensures ok && Valid()
      ensures measurements == Renamed(old(measurements), transferMap)
      ensures histograms == Renamed(old(histograms), transferMap)
      ensures statistics == Renamed(old(statistics), transferMap)
      ensures statistics == AllAfter(old(statistics), moves) && FreeTargets(old(statistics), moves)
    {
      hide Follows, Injective, Unique, Ids, OneToOne, TargetsFree, FreeTargets, AllAfter;
      ghost var wasM, wasH, wasS := measurements, histograms, statistics;
      var unusedID := Largest(transferMap.Values + transferMap.Keys);
      unusedID := 1 + unusedID;
      var todo := DropIdentities(transferMap);
      Start(transferMap, wasM, todo, unusedID);
      Start(transferMap, wasH, todo, unusedID);
      Start(transferMap, wasS, todo, unusedID);
      StartFree(transferMap, wasS, todo);
      moves := [];
      NoMoves(wasS);
      while todo.Keys != {}
        invariant AllFollow(transferMap, wasM, wasH, wasS, todo, unusedID) && OneToOne(todo)
        invariant TargetsFree(todo, statistics)
        invariant statistics == AllAfter(wasS, moves) && FreeTargets(wasS, moves)
        decreases |todo|, |Both(todo)|
      {
        var found, oldK := FindEntry(todo);
        if found {
          var newK := todo[oldK];
          NextFound(transferMap, wasM, todo, measurements, unusedID, oldK);
          NextFound(transferMap, wasH, todo, histograms, unusedID, oldK);
          NextFound(transferMap, wasS, todo, statistics, unusedID, oldK);
          FreeFound(todo, statistics, oldK);
          EntryDone(todo, oldK);
          FreeMore(wasS, moves, Cross(oldK, newK));
          AllAfterMore(wasS, moves, Cross(oldK, newK));
          moves := moves + [Cross(oldK, newK)];
          todo := todo - {oldK};
          ok := ReplaceSingleStatisticID(oldK, newK);
        } else {
          unusedID := unusedID + 1;
          NextFresh(transferMap, wasM, todo, measurements, unusedID, oldK);
          NextFresh(transferMap, wasH, todo, histograms, unusedID, oldK);
          NextFresh(transferMap, wasS, todo, statistics, unusedID, oldK);
          FreeFresh(transferMap, wasS, todo, statistics, unusedID, oldK);
          CycleOpened(todo, oldK, unusedID);
          FreeMore(wasS, moves, Open(oldK, unusedID));
          AllAfterMore(wasS, moves, Open(oldK, unusedID));
          moves := moves + [Open(oldK, unusedID)];
          ok := ReplaceSingleStatisticID(oldK, unusedID);
          todo := Opened(todo, oldK, unusedID);
        }
      }
      ok := true;
      Finish(transferMap, wasM, wasH, wasS, todo, unusedID);
    }

    lemma Finish(m0: map<int, int>, wasM: seq<Row<Time, Values>>, wasH: seq<Row<(Time, int), Values>>,
                 wasS: seq<Row<(), Ident>>, m: map<int, int>, unused: int)
      requires AllFollow(m0, wasM, wasH, wasS, m, unused) && m.Keys == {} && Ids(wasM) <= Ids(wasS)
      requires Ids(wasH) <= Ids(wasS)
      requires Unique(Renamed(wasM, m0)) && Unique(Renamed(wasH, m0)) && Unique(Renamed(wasS, m0))
      ensures measurements == Renamed(wasM, m0) && histograms == Renamed(wasH, m0) && statistics == Renamed(wasS, m0)
      ensures Valid()
    {
      hide Follows, Unique, Ids;
      assert m == map[];
      FollowsEnd(m0, wasM, measurements, unused);
      FollowsEnd(m0, wasH, histograms, unused);
      FollowsEnd(m0, wasS, statistics, unused);
      ReferencesKept(wasM, wasS, m0);
      ReferencesKept(wasH, wasS, m0);
    }

    /** No statistic in use is endangered by the renaming of dumps. */
    ghost predicate Safe(m: map<int, int>, unused: int)
      reads this`statistics
    {
      forall id :: id in Ids(statistics) ==> !Endangered(m, unused, id)
    }

    /** The same loop, called for dumps: crossing off an entry renames statistics.  A run that
        gets through leaves the tables as its moves say; statistics that are not endangered
        stay as they are, and the run gets through. */
    method ReplaceDumpIDs(transferMap: map<int, int>)
      returns (ok: bool, ghost moves: seq<Move>, ghost m: map<int, int>, ghost unused: int)
      requires Valid() && DumpsValid() && transferMap.Keys != {} && Ids(dumps) <= transferMap.Keys
      requires OneToOne(transferMap)
      modifies this
      ensures m == map k | k in transferMap && transferMap[k] != k :: transferMap[k]
      ensures unused - 1 in transferMap.Values + transferMap.Keys
      ensures forall k :: k in transferMap.Values + transferMap.Keys ==> k < unused
      ensures ok ==> exists last :: Path(m, unused, moves, map[], last)
      ensures ok ==>
        statistics == StatisticsAfter(old(statistics), moves)
        && measurements == StatisticsAfter(old(measurements), moves)
      ensures ok ==> histograms == StatisticsAfter(old(histograms), moves)
      ensures ok ==> dumps == DumpsAfter(old(dumps), moves) && dumpData == DumpsAfter(old(dumpData), moves)
      ensures old(Safe(m, unused)) ==>
        ok && Valid() && statistics == old(statistics) && measurements == old(measurements) &&
                                       histograms == old(histograms)
    {
      hide Unique, Ids, OneToOne, Path, Bounded, Endangered, StatisticsAfter, DumpsAfter, Stuck, Valid, DumpsValid,
        Safe, DumpsBelow, Opened;
      var unusedID := Largest(transferMap.Values + transferMap.Keys);
      unusedID := 1 + unusedID;
      unused := unusedID;
      var todo := DropIdentities(transferMap);
      m := todo;
      moves := [];
      ghost var wasM, wasH, wasS, wasD, wasDD := measurements, histograms, statistics, dumps, dumpData;
      ghost var safe := Safe(m, unused);
      LoopStarts(transferMap, m, unused);
      while todo.Keys != {}
        invariant Path(m, unused, moves, todo, unusedID) && Bounded(todo, unusedID) && OneToOne(todo)
        invariant StatisticsMoved(wasM, wasH, wasS, moves) && DumpsMoved(wasD, wasDD, moves) && DumpsBelow(unusedID)
        invariant safe ==>
          statistics == wasS && measurements == wasM && histograms == wasH && Valid() && Safe(m, unused)
        decreases |todo|, |Both(todo)|
      {
        var found, oldK := FindEntry(todo);
        if found {
          ghost var before := moves;
          ok, moves := CrossOff(oldK, todo, m, unused, unusedID, moves, wasM, wasH, wasS, wasD, wasDD);
          if !ok {
            return;
          }
          CrossingOff(m, unused, before, todo, unusedID, oldK);
          todo := todo - {oldK};
        } else {
          unusedID := unusedID + 1;
          Opening(m, unused, moves, todo, unusedID, oldK);
          ok, moves := OpenAt(oldK, todo, m, unused, unusedID, moves, wasM, wasH, wasS, wasD, wasDD);
          todo := Opened(todo, oldK, unusedID);
        }
      }
      assert todo == map[];
      ok := true;
    }

    /** An entry is crossed off, and its statistic renamed. */
    method CrossOff(oldK: int, todo: map<int, int>, ghost m: map<int, int>, ghost unused: int, ghost unused': int,
                    ghost moves: seq<Move>, ghost wasM: seq<Row<Time, Values>>,
                    ghost wasH: seq<Row<(Time, int), Values>>, ghost wasS: seq<Row<(), Ident>>,
                    ghost wasD: seq<Row<(), Ident>>, ghost wasDD: seq<Row<Time, Values>>)
      returns (ok: bool, ghost moves': seq<Move>)
      requires Path(m, unused, moves, todo, unused') && Bounded(m, unused) && Bounded(todo, unused') && OneToOne(m)
      requires OneToOne(todo)
      requires oldK in todo && todo[oldK] !in todo
      requires StatisticsMoved(wasM, wasH, wasS, moves) && DumpsMoved(wasD, wasDD, moves)
      modifies this`measurements, this`histograms, this`statistics
      ensures moves' == moves + [Cross(oldK, todo[oldK])]
      ensures ok ==> StatisticsMoved(wasM, wasH, wasS, moves') && DumpsMoved(wasD, wasDD, moves')
      ensures old(Safe(m, unused) && Valid()) ==> ok && Safe(m, unused) && Valid() && statistics == old(statistics) &&
                                                  measurements == old(measurements) && histograms == old(histograms)
    {
      hide Unique, Ids, OneToOne, Path, Bounded, Endangered, StatisticsAfter, DumpsAfter;
      CrossingOff(m, unused, moves, todo, unused', oldK);
      MovedMore(wasM, wasH, wasS, wasD, wasDD, moves, Cross(oldK, todo[oldK]));
      moves' := moves + [Cross(oldK, todo[oldK])];
      ok := ReplaceSingleStatisticID(oldK, todo[oldK]);
    }

    /** An entry is opened, and its dump renamed. */
    method OpenAt(oldK: int, todo: map<int, int>, ghost m: map<int, int>, ghost unused: int, unused': int,
                  ghost moves: seq<Move>, ghost wasM: seq<Row<Time, Values>>, ghost wasH: seq<Row<(Time, int), Values>>,
                  ghost wasS: seq<Row<(), Ident>>, ghost wasD: seq<Row<(), Ident>>, ghost wasDD: seq<Row<Time, Values>>)
      returns (ok: bool, ghost moves': seq<Move>)
      requires Path(m, unused, moves, todo, unused' - 1) && Bounded(todo, unused' - 1) && OneToOne(todo)
      requires oldK in todo && Stuck(todo) && DumpsBelow(unused' - 1)
      requires StatisticsMoved(wasM, wasH, wasS, moves) && DumpsMoved(wasD, wasDD, moves)
      modifies this`dumps, this`dumpData
      ensures moves' == moves + [Open(oldK, unused')] && ok && DumpsBelow(unused')
      ensures StatisticsMoved(wasM, wasH, wasS, moves') && DumpsMoved(wasD, wasDD, moves')
    {
      hide Unique, Ids, OneToOne, Path, Bounded, StatisticsAfter, DumpsAfter;
      Opening(m, unused, moves, todo, unused', oldK);
      MovedMore(wasM, wasH, wasS, wasD, wasDD, moves, Open(oldK, unused'));
      moves' := moves + [Open(oldK, unused')];
      ok := ReplaceSingleDumpID(oldK, unused');
    }

    lemma LoopStarts(transferMap: map<int, int>, m: map<int, int>, unused: int)
      requires m == map k | k in transferMap && transferMap[k] != k :: transferMap[k]
      requires (forall k :: k in transferMap.Values + transferMap.Keys ==> k < unused) && OneToOne(transferMap)
      requires DumpsValid() && Ids(dumps) <= transferMap.Keys
      ensures Path(m, unused, [], m, unused) && Bounded(m, unused) && OneToOne(m)
      ensures StatisticsMoved(measurements, histograms, statistics, []) && DumpsMoved(dumps, dumpData, [])
      ensures DumpsBelow(unused)
    {
      hide OneToOne, Path, Bounded, Unique;
      DumpStart(transferMap, m, unused, dumps);
      DumpStart(transferMap, m, unused, dumpData);
      NothingYet(measurements);
      NothingYet(histograms);
      NothingYet(statistics);
      NothingYet(dumps);
      NothingYet(dumpData);
    }

    ghost predicate StatisticsMoved(wasM: seq<Row<Time, Values>>, wasH: seq<Row<(Time, int), Values>>,
                                    wasS: seq<Row<(), Ident>>, moves: seq<Move>)
      reads this`measurements, this`histograms, this`statistics
    {
      && measurements == StatisticsAfter(wasM, moves) && histograms == StatisticsAfter(wasH, moves)
      && statistics == StatisticsAfter(wasS, moves)
    }

    ghost predicate DumpsMoved(wasD: seq<Row<(), Ident>>, wasDD: seq<Row<Time, Values>>, moves: seq<Move>)
      reads this`dumps, this`dumpData
    {
      dumps == DumpsAfter(wasD, moves) && dumpData == DumpsAfter(wasDD, moves)
    }

    /** No dump has an id above the last fresh one. */
    ghost predicate DumpsBelow(unused: int)
      reads this`dumps, this`dumpData
    {
      && Unique(dumps) && Unique(dumpData)
      && (forall x :: x in Ids(dumps) ==> x <= unused) && (forall x :: x in Ids(dumpData) ==> x <= unused)
    }

    lemma MovedMore(wasM: seq<Row<Time, Values>>, wasH: seq<Row<(Time, int), Values>>, wasS: seq<Row<(), Ident>>,
                    wasD: seq<Row<(), Ident>>, wasDD: seq<Row<Time, Values>>, moves: seq<Move>, mv: Move)
      ensures StatisticsAfter(wasM, moves + [mv]) ==
        if mv.Cross?
          then Renamed(StatisticsAfter(wasM, moves), map[mv.id := mv.target]) else StatisticsAfter(wasM, moves)
      ensures StatisticsAfter(wasH, moves + [mv]) ==
        if mv.Cross?
          then Renamed(StatisticsAfter(wasH, moves), map[mv.id := mv.target]) else StatisticsAfter(wasH, moves)
      ensures StatisticsAfter(wasS, moves + [mv]) ==
        if mv.Cross?
          then Renamed(StatisticsAfter(wasS, moves), map[mv.id := mv.target]) else StatisticsAfter(wasS, moves)
      ensures DumpsAfter(wasD, moves + [mv]) ==
        if mv.Open? then Renamed(DumpsAfter(wasD, moves), map[mv.id := mv.target]) else DumpsAfter(wasD, moves)
      ensures DumpsAfter(wasDD, moves + [mv]) ==
        if mv.Open? then Renamed(DumpsAfter(wasDD, moves), map[mv.id := mv.target]) else DumpsAfter(wasDD, moves)
    {
      StatisticsAfterMore(wasM, moves, mv);
      StatisticsAfterMore(wasH, moves, mv);
      StatisticsAfterMore(wasS, moves, mv);
      DumpsAfterMore(wasD, moves, mv);
      DumpsAfterMore(wasDD, moves, mv);
    }

    /** An entry is about to be crossed off; safe statistics do not notice. */
    lemma CrossingOff(m: map<int, int>, unused: int, moves: seq<Move>, todo: map<int, int>, unused': int, id: int)
      requires Path(m, unused, moves, todo, unused') && Bounded(m, unused) && Bounded(todo, unused') && OneToOne(m)
      requires OneToOne(todo)
      requires id in todo && todo[id] !in todo
      ensures Path(m, unused, moves + [Cross(id, todo[id])], todo - {id}, unused')
      ensures Bounded(todo - {id}, unused') && OneToOne(todo - {id}) && |todo - {id}| < |todo|
      ensures Safe(m, unused) && Valid() ==>
        && Renamed(statistics, map[id := todo[id]]) == statistics
        && Renamed(measurements, map[id := todo[id]]) == measurements
        && Renamed(histograms, map[id := todo[id]]) == histograms
        && Unique(statistics) && Unique(measurements) && Unique(histograms)
    {
      hide OneToOne, Path, Bounded, Endangered, Unique, Stuck;
      var mv := Cross(id, todo[id]);
      PathMore(m, unused, moves, todo, unused', mv);
      BoundedNext(todo, unused', mv);
      EntryDone(todo, id);
      if Safe(m, unused) && Valid() {
        NextCrossed(m, unused, moves, todo, unused', mv);
        NotInTable(statistics, id, todo[id]);
        NotInTable(measurements, id, todo[id]);
        NotInTable(histograms, id, todo[id]);
      }
    }

    /** An entry is about to be opened at a fresh id. */
    lemma Opening(m: map<int, int>, unused: int, moves: seq<Move>, todo: map<int, int>, unused': int, id: int)
      requires Path(m, unused, moves, todo, unused' - 1) && Bounded(todo, unused' - 1) && OneToOne(todo)
      requires id in todo && Stuck(todo) && DumpsBelow(unused' - 1)
      ensures var todo' := Opened(todo, id, unused');
        && Path(m, unused, moves + [Open(id, unused')], todo', unused') && Bounded(todo', unused') && OneToOne(todo')
        && |todo'| == |todo| && |Both(todo')| < |Both(todo)|
      ensures Unique(Renamed(dumps, map[id := unused'])) && Unique(Renamed(dumpData, map[id := unused']))
      ensures forall x :: x in Ids(Renamed(dumps, map[id := unused'])) ==> x <= unused'
      ensures forall x :: x in Ids(Renamed(dumpData, map[id := unused'])) ==> x <= unused'
    {
      hide OneToOne, Path, Bounded, Unique, Stuck;
      var mv := Open(id, unused');
      PathMore(m, unused, moves, todo, unused' - 1, mv);
      BoundedNext(todo, unused' - 1, mv);
      NotAValue(todo, unused' - 1, unused');
      CycleOpened(todo, id, unused');
      UniqueFresh(dumps, id, unused');
      UniqueFresh(dumpData, id, unused');
    }
  }
}
