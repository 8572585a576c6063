/** Collecting the measurements of all hosts: what the merged table says about a statistic is
    what the databases said about it together, whatever ids they gave it. */
module PostProcessing {
  import opened Renaming
  import opened Dumps
  import opened Database
  import opened Matching
  import opened Merging

  type Measurements = seq<Row<int, Sums>>

  /** The measurements by id of the statistic and time. */
  function ById(rows: Measurements): Table<(int, int)> {
    if rows == [] then map[]
    else var row := rows[|rows| - 1]; ById(rows[..|rows| - 1])[(row.id, row.key) := row.data]
  }

  /** The same by the statistic's identity, which does not depend on any ids. */
  function ByIdentity(statistics: Statistics, rows: Measurements): Table<(Ident, int)>
    requires Ids(rows) <= Ids(statistics)
  {
    if rows == [] then map[]
    else var row := rows[|rows| - 1];
      IdsShorter(rows);
      ByIdentity(statistics, rows[..|rows| - 1])[(IdentityOf(statistics, row.id), row.key) := row.data]
  }

  lemma IdsShorter(rows: Measurements)
    requires rows != []
    ensures Ids(rows[..|rows| - 1]) <= Ids(rows) && rows[|rows| - 1].id in Ids(rows)
  {
    assert forall i :: 0 <= i < |rows| - 1 ==> rows[..|rows| - 1][i] == rows[i];
  }

  function IdentityOf(statistics: Statistics, id: int): (x: Ident)
    requires id in Ids(statistics)
    ensures exists i :: 0 <= i < |statistics| && statistics[i].id == id && statistics[i].data == x
  {
    if statistics[|statistics| - 1].id == id then statistics[|statistics| - 1].data
    else IdentityOf(statistics[..|statistics| - 1], id)
  }

  /** The table has exactly the rows, each under its id and time. */
  lemma {:induction false} ByIdIff(rows: Measurements, id: int, time: int)
    requires Unique(rows)
    ensures (id, time) in ById(rows) <==> exists i :: 0 <= i < |rows| && rows[i].id == id && rows[i].key == time
    ensures forall i :: 0 <= i < |rows| && rows[i].id == id && rows[i].key == time ==>
      (id, time) in ById(rows) && ById(rows)[(id, time)] == rows[i].data
  {
    if rows != [] {
      var init := rows[..|rows| - 1];
      ByIdIff(init, id, time);
      assert forall i :: 0 <= i < |init| ==> init[i] == rows[i];
    }
  }

  /** A database whose statistics and rows are these has measured v for x at this time. */
  ghost predicate Says(statistics: Statistics, rows: Measurements, x: Ident, time: int, v: Sums) {
    exists i, j :: 0 <= i < |rows| && 0 <= j < |statistics| && Measured(rows[i], statistics[j], x, time, v)
  }

  ghost predicate Measured(row: Row<int, Sums>, statistic: Row<(), Ident>, x: Ident, time: int, v: Sums) {
    row.id == statistic.id && row.key == time && row.data == v && statistic.data == x
  }

  lemma IdentityIs(statistics: Statistics, j: nat)
    requires Unique(statistics) && j < |statistics|
    ensures statistics[j].id in Ids(statistics) && IdentityOf(statistics, statistics[j].id) == statistics[j].data
  {
    var id := statistics[j].id;
    assert id in Ids(statistics);
    var i :| 0 <= i < |statistics| && statistics[i].id == id && statistics[i].data == IdentityOf(statistics, id);
    assert i < j || j < i || i == j;
  }

  /** One more row says one thing more. */
  lemma SaysMore(statistics: Statistics, rows: Measurements, x: Ident, time: int, v: Sums)
    requires rows != [] && Ids(rows) <= Ids(statistics) && Unique(statistics) && rows[|rows| - 1].id in Ids(statistics)
    ensures var row := rows[|rows| - 1];
      Says(statistics, rows, x, time, v) <==>
        Says(statistics, rows[..|rows| - 1], x, time, v)
        || (IdentityOf(statistics, row.id) == x && row.key == time && row.data == v)
  {
    var init, row := rows[..|rows| - 1], rows[|rows| - 1];
    if Says(statistics, rows, x, time, v) {
      var i, j :| 0 <= i < |rows| && 0 <= j < |statistics| && Measured(rows[i], statistics[j], x, time, v);
      IdentityIs(statistics, j);
      if i < |init| { assert Measured(init[i], statistics[j], x, time, v); }
    }
    if Says(statistics, init, x, time, v) {
      var i, j :| 0 <= i < |init| && 0 <= j < |statistics| && Measured(init[i], statistics[j], x, time, v);
      assert Measured(rows[i], statistics[j], x, time, v);
    }
    if IdentityOf(statistics, row.id) == x && row.key == time && row.data == v {
      var j :| 0 <= j < |statistics| && statistics[j].id == row.id && statistics[j].data == x;
      assert Measured(rows[|init|], statistics[j], x, time, v);
    }
  }

  /** No two rows are about the same statistic and time. */
  lemma SaysOnce(statistics: Statistics, rows: Measurements, x: Ident, time: int, v: Sums)
    requires rows != [] && Unique(rows) && Unique(statistics) && Distinct(statistics)
    requires rows[|rows| - 1].id in Ids(statistics) && IdentityOf(statistics, rows[|rows| - 1].id) == x
    requires rows[|rows| - 1].key == time
    ensures !Says(statistics, rows[..|rows| - 1], x, time, v)
  {
    assert forall i :: 0 <= i < |rows| - 1 ==> rows[..|rows| - 1][i] == rows[i];
  }

  /** The table by identity has exactly what the rows say. */
  lemma {:induction false} ByIdentityIff(statistics: Statistics, rows: Measurements, x: Ident, time: int, v: Sums)
    requires Ids(rows) <= Ids(statistics) && Unique(rows) && Unique(statistics) && Distinct(statistics)
    ensures Says(statistics, rows, x, time, v) <==>
      (x, time) in ByIdentity(statistics, rows) && ByIdentity(statistics, rows)[(x, time)] == v
  {
    hide Says, Distinct;
    if rows == [] {
      NothingSaid(statistics, x, time, v);
    } else {
      var init, row := rows[..|rows| - 1], rows[|rows| - 1];
      IdsShorter(rows);
      ByIdentityIff(statistics, init, x, time, v);
      SaysMore(statistics, rows, x, time, v);
      if IdentityOf(statistics, row.id) == x && row.key == time {
        SaysOnce(statistics, rows, x, time, v);
      }
    }
  }

  lemma NothingSaid(statistics: Statistics, x: Ident, time: int, v: Sums)
    ensures !Says(statistics, [], x, time, v)
  {
  }

  /** One table is the other, read through the global ids. */
  ghost predicate SameThrough(objects: Statistics, a: Table<(int, int)>, b: Table<(Ident, int)>) {
    forall x, id, time :: Known(objects, x, id) ==>
      ((id, time) in a <==> (x, time) in b) && ((id, time) in a ==> a[(id, time)] == b[(x, time)])
  }

  /** Every statistic of a database has its global id. */
  lemma {:induction false} ByIdIsByIdentity(objects: Statistics, statistics: Statistics,
                                            rows: Measurements, m: map<int, int>)
    requires Canonical(objects) && AllKnown(objects, Renamed(statistics, m)) && Ids(rows) <= Ids(statistics)
    ensures SameThrough(objects, ById(Renamed(rows, m)), ByIdentity(statistics, rows))
  {
    hide Canonical, Known;
    if rows != [] {
      var n := |rows| - 1;
      IdsShorter(rows);
      assert Renamed(rows, m)[..n] == Renamed(rows[..n], m);
      ByIdIsByIdentity(objects, statistics, rows[..n], m);
      OneMoreRow(objects, statistics, rows[n], m, ById(Renamed(rows[..n], m)), ByIdentity(statistics, rows[..n]));
    }
  }

  lemma OneMoreRow(objects: Statistics, statistics: Statistics, row: Row<int, Sums>, m: map<int, int>,
                   a: Table<(int, int)>, b: Table<(Ident, int)>)
    requires Canonical(objects) && AllKnown(objects, Renamed(statistics, m)) && row.id in Ids(statistics)
    requires SameThrough(objects, a, b)
    ensures SameThrough(objects, a[(Apply(m, row.id), row.key) := row.data],
      b[(IdentityOf(statistics, row.id), row.key) := row.data])
  {
    hide Canonical, Known;
    var y := IdentityOf(statistics, row.id);
    assert Known(objects, y, Apply(m, row.id)) by {
      var i :| 0 <= i < |statistics| && statistics[i].id == row.id && statistics[i].data == y;
      assert Known(objects, Renamed(statistics, m)[i].data, Renamed(statistics, m)[i].id);
    }
    forall x, id | Known(objects, x, id)
      ensures id == Apply(m, row.id) <==> x == y
    {
      SameIdSameStatistic(objects, x, id, y, Apply(m, row.id));
    }
  }

  lemma MergedSame(objects: Statistics, a: Table<(int, int)>, b: Table<(Ident, int)>,
                   a': Table<(int, int)>, b': Table<(Ident, int)>)
    requires SameThrough(objects, a, b) && SameThrough(objects, a', b')
    ensures SameThrough(objects, Merged(a, a'), Merged(b, b'))
  {
    hide Known, Together;
  }

  /** A list of tables, each as it stands for a database. */
  lemma {:induction false} AllMergedSame(objects: Statistics, byId: seq<Table<(int, int)>>,
                                         byIdentity: seq<Table<(Ident, int)>>)
    requires |byId| == |byIdentity| && forall i :: 0 <= i < |byId| ==> SameThrough(objects, byId[i], byIdentity[i])
    ensures SameThrough(objects, MergeAll(byId), MergeAll(byIdentity))
  {
    hide SameThrough;
    if byId == [] {
      NothingSame(objects);
    } else {
      var n := |byId| - 1;
      AllMergedSame(objects, byId[..n], byIdentity[..n]);
      MergedSame(objects, MergeAll(byId[..n]), MergeAll(byIdentity[..n]), byId[n], byIdentity[n]);
    }
  }

  lemma NothingSame(objects: Statistics)
    ensures SameThrough(objects, map[], map[])
  {
  }

  /** What one database held: its statistics, its measurements, and the global ids. */
  datatype Held = Held(statistics: Statistics, measurements: Measurements, ids: map<int, int>)

  ghost predicate Matched(objects: Statistics, h: Held) {
    Ids(h.measurements) <= Ids(h.statistics) && AllKnown(objects, Renamed(h.statistics, h.ids))
  }

  function TablesById(hs: seq<Held>): (r: seq<Table<(int, int)>>)
    ensures |r| == |hs| && forall i :: 0 <= i < |hs| ==> r[i] == ById(Renamed(hs[i].measurements, hs[i].ids))
  {
    if hs == [] then [] else TablesById(hs[..|hs| - 1]) + [ById(Renamed(hs[|hs| - 1].measurements, hs[|hs| - 1].ids))]
  }

  ghost predicate Referring(hs: seq<Held>) {
    forall i :: 0 <= i < |hs| ==> Ids(hs[i].measurements) <= Ids(hs[i].statistics)
  }

  ghost function TablesByIdentity(hs: seq<Held>): (r: seq<Table<(Ident, int)>>)
    requires Referring(hs)
    ensures |r| == |hs| && forall i :: 0 <= i < |hs| ==> r[i] == ByIdentity(hs[i].statistics, hs[i].measurements)
  {
    if hs == [] then []
    else TablesByIdentity(hs[..|hs| - 1]) + [ByIdentity(hs[|hs| - 1].statistics, hs[|hs| - 1].measurements)]
  }

  lemma TotalsThrough(objects: Statistics, merged: Table<(int, int)>, tables: seq<Table<(Ident, int)>>, x: Ident,
                      id: int, time: int)
    requires Known(objects, x, id) && SameThrough(objects, merged, MergeAll(tables))
    ensures (id, time) in merged <==> exists i :: 0 <= i < |tables| && (x, time) in tables[i]
    ensures (id, time) in merged ==> IsTotal(tables, (x, time), merged[(id, time)])
  {
    hide Known, Extremes, MergeAll, TotalCount, TotalSum, TotalSum2;
    MergeAllMeans(tables, (x, time));
  }

  /** The totals and the extremes of all the tables that have the key. */
  ghost predicate IsTotal<K>(tables: seq<Table<K>>, k: K, s: Sums) {
    && s.count == TotalCount(tables, k) && s.sum == TotalSum(tables, k) && s.sum2 == TotalSum2(tables, k)
    && Extremes(tables, k, s)
  }

  lemma AllReferring(objects: Statistics, hs: seq<Held>)
    requires forall i :: 0 <= i < |hs| ==> Matched(objects, hs[i])
    ensures Referring(hs)
    ensures SameThrough(objects, MergeAll(TablesById(hs)), MergeAll(TablesByIdentity(hs))) || !Canonical(objects)
  {
    hide Canonical, SameThrough, AllKnown, ById, ByIdentity, MergeAll;
    if Canonical(objects) {
      forall i | 0 <= i < |hs|
        ensures SameThrough(objects, TablesById(hs)[i], TablesByIdentity(hs)[i])
      {
        ByIdIsByIdentity(objects, hs[i].statistics, hs[i].measurements, hs[i].ids);
      }
      AllMergedSame(objects, TablesById(hs), TablesByIdentity(hs));
    }
  }

  /** What each of the databases has measured for x at this time. */
  ghost predicate Told(hs: seq<Held>, x: Ident, time: int, told: seq<Option<Sums>>) {
    |told| == |hs| && forall i, v :: 0 <= i < |hs| ==>
      (told[i] == Some(v) <==> Says(hs[i].statistics, hs[i].measurements, x, time, v))
  }

  // The totals of what was told.
  function Counted(told: seq<Option<Sums>>): int {
    if told == [] then 0
    else Counted(told[..|told| - 1]) + if told[|told| - 1] == None then 0 else told[|told| - 1].value.count
  }

  function Summed(told: seq<Option<Sums>>): real {
    if told == [] then 0.0
    else Summed(told[..|told| - 1]) + if told[|told| - 1] == None then 0.0 else told[|told| - 1].value.sum
  }

  function Summed2(told: seq<Option<Sums>>): real {
    if told == [] then 0.0
    else Summed2(told[..|told| - 1]) + if told[|told| - 1] == None then 0.0 else told[|told| - 1].value.sum2
  }

  /** s has the totals and the extremes of what was told. */
  ghost predicate Summary(told: seq<Option<Sums>>, s: Sums) {
    && s.count == Counted(told) && s.sum == Summed(told) && s.sum2 == Summed2(told)
    && (forall i :: 0 <= i < |told| && told[i].Some? ==> s.min <= told[i].value.min && told[i].value.max <= s.max)
    && (exists i :: 0 <= i < |told| && told[i].Some? && told[i].value.max == s.max)
    && (exists i :: 0 <= i < |told| && told[i].Some? && told[i].value.min == s.min)
  }

  /** Of two databases, say. */
  lemma OfTwo(a: Sums, b: Sums, s: Sums)
    requires Summary([Some(a), Some(b)], s)
    ensures s.count == a.count + b.count && s.sum == a.sum + b.sum && s.sum2 == a.sum2 + b.sum2
    ensures s.max == Max(a.max, b.max) && s.min == Min(a.min, b.min)
  {
    var told := [Some(a), Some(b)];
    assert told[..1] == [Some(a)] && [Some(a)][..0] == [];
    assert Counted([Some(a)]) == a.count && Summed([Some(a)]) == a.sum && Summed2([Some(a)]) == a.sum2;
    assert told[0].Some? && told[1].Some?;
  }

  /** A column of the tables. */
  ghost predicate Column<K>(tables: seq<Table<K>>, k: K, told: seq<Option<Sums>>) {
    |told| == |tables| && forall i :: 0 <= i < |tables| ==>
      told[i] == if k in tables[i] then Some(tables[i][k]) else None
  }

  lemma {:induction false} ColumnTotals<K>(tables: seq<Table<K>>, k: K, told: seq<Option<Sums>>)
    requires Column(tables, k, told)
    ensures Counted(told) == TotalCount(tables, k) && Summed(told) == TotalSum(tables, k)
    ensures Summed2(told) == TotalSum2(tables, k)
  {
    if tables != [] {
      ColumnTotals(tables[..|tables| - 1], k, told[..|told| - 1]);
    }
  }

  lemma ColumnSummary<K>(tables: seq<Table<K>>, k: K, told: seq<Option<Sums>>, s: Sums)
    requires Column(tables, k, told) && IsTotal(tables, k, s)
    ensures Summary(told, s)
  {
    hide TotalCount, TotalSum, TotalSum2, Counted, Summed, Summed2;
    ColumnTotals(tables, k, told);
    var i :| 0 <= i < |tables| && k in tables[i] && tables[i][k].max == s.max;
    var j :| 0 <= j < |tables| && k in tables[j] && tables[j][k].min == s.min;
    assert told[i].Some? && told[j].Some?;
  }

  /** The primary keys of a database, and that its statistics have different identities. */
  ghost predicate Keyed(h: Held) {
    Unique(h.measurements) && Unique(h.statistics) && Distinct(h.statistics)
  }

  lemma ToldColumn(hs: seq<Held>, x: Ident, time: int, told: seq<Option<Sums>>)
    requires Referring(hs) && Told(hs, x, time, told) && forall i :: 0 <= i < |hs| ==> Keyed(hs[i])
    ensures Column(TablesByIdentity(hs), (x, time), told)
  {
    hide Says, ByIdentity, Unique, Distinct;
    var tables := TablesByIdentity(hs);
    forall i | 0 <= i < |hs|
      ensures told[i] == if (x, time) in tables[i] then Some(tables[i][(x, time)]) else None
    {
      assert Keyed(hs[i]);
      if told[i].Some? {
        ByIdentityIff(hs[i].statistics, hs[i].measurements, x, time, told[i].value);
      } else if (x, time) in tables[i] {
        ByIdentityIff(hs[i].statistics, hs[i].measurements, x, time, tables[i][(x, time)]);
      }
    }
  }

  /** End to end: under its global id the merged table has the totals and the extremes of what
      the rows of all databases say about a statistic and time, and nothing if none says
      anything. */
  lemma {:induction false} CollectedMeans(objects: Statistics, hs: seq<Held>, x: Ident, id: int,
                                          time: int, told: seq<Option<Sums>>)
    requires Canonical(objects) && Known(objects, x, id) && Referring(hs) && Told(hs, x, time, told)
    requires forall i :: 0 <= i < |hs| ==> Matched(objects, hs[i]) && Keyed(hs[i])
    ensures var merged := MergeAll(TablesById(hs));
      && ((id, time) in merged <==> exists i :: 0 <= i < |told| && told[i].Some?)
      && ((id, time) in merged ==> Summary(told, merged[(id, time)]))
  {
    hide Canonical, Known, Matched, SameThrough, IsTotal, MergeAll, ById, ByIdentity, Keyed, Told, Summary;
    var tables, merged := TablesByIdentity(hs), MergeAll(TablesById(hs));
    AllReferring(objects, hs);
    TotalsThrough(objects, merged, tables, x, id, time);
    ToldColumn(hs, x, time, told);
    if (id, time) in merged {
      ColumnSummary(tables, (x, time), told, merged[(id, time)]);
      var i :| 0 <= i < |tables| && (x, time) in tables[i];
      assert told[i].Some?;
    }
  }

  // ------ collecting

  lemma MatchedStays(objects: Statistics, objects': Statistics, h: Held)
    requires objects <= objects' && Matched(objects, h)
    ensures Matched(objects', h)
  {
    hide Known;
    var rows := Renamed(h.statistics, h.ids);
    forall i | 0 <= i < |rows|
      ensures Known(objects', rows[i].data, rows[i].id)
    {
      KnownStays(objects, objects', rows[i].data, rows[i].id);
    }
  }

  type HostDB = NodeDatabase<int, Sums>

  /** What the matching demands of the databases. */
  ghost predicate Sound(db: HostDB)
    reads db
  {
    db.Valid() && db.DumpsValid() && Distinct(db.statistics) && Distinct(db.dumps)
  }

  /** The dumps' map leaves the statistics alone, whatever the choices of its loop. */
  ghost predicate Untouched(h: Held, dumpMap: map<int, int>, unused: int) {
    forall id :: id in Ids(Renamed(h.statistics, h.ids)) ==> !Endangered(dumpMap, unused, id)
  }

  /** Matches one database after the other against the growing global lists. */
  method PrepareAll(dbs: seq<HostDB>, globals: GlobalSpace, globalDumps: GlobalSpace)
    returns (ghost hs: seq<Held>, ghost dumpMaps: seq<map<int, int>>, ghost unused: seq<int>)
    requires (forall i :: 0 <= i < |dbs| ==> Sound(dbs[i])) && forall i, j :: 0 <= i < j < |dbs| ==> dbs[i] != dbs[j]
    requires Canonical(globals.objects) && Canonical(globalDumps.objects) && globals != globalDumps
    modifies dbs, globals, globalDumps
    ensures Canonical(globals.objects) && old(globals.objects) <= globals.objects
    ensures |hs| == |dumpMaps| == |unused| == |dbs| && Referring(hs)
    ensures forall i :: 0 <= i < |dbs| ==> Matched(globals.objects, hs[i]) && Keyed(hs[i])
    ensures forall i :: 0 <= i < |dbs| ==>
      hs[i].statistics == old(dbs[i].statistics) && hs[i].measurements == old(dbs[i].measurements)
    ensures forall i :: 0 <= i < |dbs| && Untouched(hs[i], dumpMaps[i], unused[i]) ==>
      dbs[i].measurements == Renamed(hs[i].measurements, hs[i].ids)
  {
    hide Canonical, Matched, Sound, Untouched, Keyed;
    hs, dumpMaps, unused := [], [], [];
    var i := 0;
    while i < |dbs|
      invariant 0 <= i <= |dbs| && |hs| == |dumpMaps| == |unused| == i && Referring(hs)
      invariant Canonical(globals.objects) && old(globals.objects) <= globals.objects && Canonical(globalDumps.objects)
      invariant forall j :: i <= j < |dbs| ==> Sound(dbs[j])
      invariant forall j :: i <= j < |dbs| ==>
        dbs[j].statistics == old(dbs[j].statistics) && dbs[j].measurements == old(dbs[j].measurements)
      invariant forall j :: 0 <= j < i ==> Matched(globals.objects, hs[j]) && Keyed(hs[j])
      invariant forall j :: 0 <= j < i ==>
        hs[j].statistics == old(dbs[j].statistics) && hs[j].measurements == old(dbs[j].measurements)
      invariant forall j :: 0 <= j < i && Untouched(hs[j], dumpMaps[j], unused[j]) ==>
        dbs[j].measurements == Renamed(hs[j].measurements, hs[j].ids)
    {
      ghost var before := globals.objects;
      ghost var h, dumpMap, last := PrepareOne(dbs[i], globals, globalDumps);
      forall j | 0 <= j < i
        ensures Matched(globals.objects, hs[j])
      {
        MatchedStays(before, globals.objects, hs[j]);
      }
      hs, dumpMaps, unused := hs + [h], dumpMaps + [dumpMap], unused + [last];
      i := i + 1;
    }
  }

  method PrepareOne(db: HostDB, globals: GlobalSpace, globalDumps: GlobalSpace)
    returns (ghost h: Held, ghost dumpMap: map<int, int>, ghost unused: int)
    requires Sound(db) && Canonical(globals.objects) && Canonical(globalDumps.objects) && globals != globalDumps
    modifies db, globals, globalDumps
    ensures Canonical(globals.objects) && old(globals.objects) <= globals.objects && Canonical(globalDumps.objects)
    ensures Matched(globals.objects, h) && Ids(h.measurements) <= Ids(h.statistics) && Keyed(h)
    ensures h.statistics == old(db.statistics) && h.measurements == old(db.measurements)
    ensures Untouched(h, dumpMap, unused) ==> db.measurements == Renamed(h.measurements, h.ids)
  {
    hide Canonical, AllKnown, Unique, Known, OneToOne, Path, Bounded, Endangered, StatisticsAfter, DumpsAfter;
    ghost var statistics, measurements := db.statistics, db.measurements;
    ghost var m, s1, moves;
    var ok;
    ok, m, s1, dumpMap, unused, moves := PrepareHostDbIDs(db, globals, globalDumps);
    h := Held(statistics, measurements, m);
  }

  /** Matches all databases, then copies their measurements: where no dump is in the way, the
      experiment's table has gained the merge of all of them under the global ids. */
  method ProcessCollectedDBs(dbs: seq<HostDB>, globals: GlobalSpace,
                             globalDumps: GlobalSpace, experiment: Experiment<(int, int)>)
    returns (ghost hs: seq<Held>, ghost dumpMaps: seq<map<int, int>>, ghost unused: seq<int>)
    requires (forall i :: 0 <= i < |dbs| ==> Sound(dbs[i])) && forall i, j :: 0 <= i < j < |dbs| ==> dbs[i] != dbs[j]
    requires Canonical(globals.objects) && Canonical(globalDumps.objects) && globals != globalDumps
    requires experiment.Complete()
    modifies dbs, globals, globalDumps, experiment
    ensures Canonical(globals.objects) && old(globals.objects) <= globals.objects && experiment.Complete()
    ensures |hs| == |dumpMaps| == |unused| == |dbs| && Referring(hs)
    ensures forall i :: 0 <= i < |dbs| ==> Matched(globals.objects, hs[i]) && Keyed(hs[i])
    ensures forall i :: 0 <= i < |dbs| ==>
      hs[i].statistics == old(dbs[i].statistics) && hs[i].measurements == old(dbs[i].measurements)
    ensures (forall i :: 0 <= i < |dbs| ==> Untouched(hs[i], dumpMaps[i], unused[i])) ==>
      experiment.Contents() == Merged(old(experiment.Contents()), MergeAll(TablesById(hs)))
  {
    hide Canonical, Matched, Sound, Untouched, Keyed, Merged, MergeAll, ById, Experiment.Contents, Experiment.Complete;
    hs, dumpMaps, unused := PrepareAll(dbs, globals, globalDumps);
    ghost var tables := CopyAll(dbs, experiment);
    if forall i :: 0 <= i < |dbs| ==> Untouched(hs[i], dumpMaps[i], unused[i]) {
      assert tables == TablesById(hs);
    }
  }

  /** Copies the measurements of one database after the other. */
  method CopyAll(dbs: seq<HostDB>, experiment: Experiment<(int, int)>) returns (ghost tables: seq<Table<(int, int)>>)
    requires experiment.Complete()
    modifies experiment
    ensures experiment.Complete() && experiment.Contents() == Merged(old(experiment.Contents()), MergeAll(tables))
    ensures |tables| == |dbs| && forall i :: 0 <= i < |dbs| ==> tables[i] == ById(dbs[i].measurements)
  {
    hide Merged, MergeAll, ById, Experiment.Contents, Experiment.Complete;
    ghost var start := experiment.Contents();
    MergedNothing(start);
    tables := [];
    var i := 0;
    while i < |dbs|
      invariant 0 <= i <= |dbs| && experiment.Complete() && |tables| == i
      invariant forall j :: 0 <= j < i ==> tables[j] == ById(dbs[j].measurements)
      invariant experiment.Contents() == Merged(start, MergeAll(tables))
    {
      experiment.CopyStatisticEntries(ById(dbs[i].measurements));
      MergeMore(start, MergeAll(tables), tables, ById(dbs[i].measurements));
      tables := tables + [ById(dbs[i].measurements)];
      i := i + 1;
    }
  }

  lemma MergedNothing<K>(t: Table<K>)
    ensures Merged(t, MergeAll([])) == t
  {
  }

  lemma MergeMore<K>(start: Table<K>, merged: Table<K>, tables: seq<Table<K>>, last: Table<K>)
    requires merged == MergeAll(tables)
    ensures Merged(Merged(start, merged), last) == Merged(start, MergeAll(tables + [last]))
  {
    assert (tables + [last])[..|tables|] == tables;
    MergeAssociates(start, merged, last);
  }
}
