/** Renaming the ids of a node database: a simultaneous renaming done by single renames,
    with a fresh id to break each cycle. */
module Renaming {

  /** A table row; id and key together are the table's primary key. */
  datatype Row<K, D> = Row(id: int, key: K, data: D)

  function Apply(m: map<int, int>, id: int): int {
    if id in m then m[id] else id
  }

  /** The rows under a simultaneous renaming of their ids. */
  function Renamed<K, D>(rows: seq<Row<K, D>>, m: map<int, int>): (r: seq<Row<K, D>>)
    ensures |r| == |rows|
    ensures forall i :: 0 <= i < |rows| ==> r[i] == rows[i].(id := Apply(m, rows[i].id))
  {
    if rows == [] then []
    else Renamed(rows[..|rows| - 1], m) + [rows[|rows| - 1].(id := Apply(m, rows[|rows| - 1].id))]
  }

  predicate Unique<K(==), D>(rows: seq<Row<K, D>>) {
    forall i, j :: 0 <= i < j < |rows| ==> rows[i].id != rows[j].id || rows[i].key != rows[j].key
  }

  function Ids<K, D>(rows: seq<Row<K, D>>): set<int> {
    set i | 0 <= i < |rows| :: rows[i].id
  }

  ghost predicate Injective(m: map<int, int>, ids: set<int>) {
    forall a, b :: a in ids && b in ids && Apply(m, a) == Apply(m, b) ==> a == b
  }

  // ------ what each single rename keeps

  /** The rows are on the way from rows0 to their images under m0: what is left to do is m.
      Every id seen so far is at most unused. */
  ghost predicate Follows<K, D>(m0: map<int, int>, rows0: seq<Row<K, D>>, m: map<int, int>,
                                rows: seq<Row<K, D>>, unused: int) {
    && |rows| == |rows0|
    && (forall i :: 0 <= i < |rows| ==> rows[i] == rows0[i].(id := rows[i].id))
    && (forall i :: 0 <= i < |rows| ==> Apply(m, rows[i].id) == Apply(m0, rows0[i].id))
    && (forall i :: 0 <= i < |rows| ==> rows[i].id <= unused)
    && forall k :: k in m ==> k <= unused && m[k] <= unused && m[k] != k
  }

  /** The entry is done when its target is no longer to be renamed. */
  lemma FoundKeeps<K, D>(m0: map<int, int>, rows0: seq<Row<K, D>>, m: map<int, int>, rows: seq<Row<K, D>>,
                         unused: int, oldK: int)
    requires Follows(m0, rows0, m, rows, unused) && oldK in m && m[oldK] !in m
    ensures Follows(m0, rows0, m - {oldK}, Renamed(rows, map[oldK := m[oldK]]), unused)
  {
  }

  /** The fresh id takes over where oldK had to go. */
  function Opened<K>(m: map<K, K>, oldK: K, id: K): map<K, K>
    requires oldK in m
  {
    m[id := m[oldK]] - {oldK}
  }

  /** A cycle is opened at oldK. */
  lemma FreshKeeps<K, D>(m0: map<int, int>, rows0: seq<Row<K, D>>, m: map<int, int>, rows: seq<Row<K, D>>,
                         unused: int, oldK: int)
    requires Follows(m0, rows0, m, rows, unused) && oldK in m
    ensures Follows(m0, rows0, Opened(m, oldK, unused + 1), Renamed(rows, map[oldK := unused + 1]), unused + 1)
  {
  }

  lemma FollowsStart<K, D>(m0: map<int, int>, rows: seq<Row<K, D>>, m: map<int, int>, unused: int)
    requires m == map k | k in m0 && m0[k] != k :: m0[k]
    requires forall k :: k in m0 ==> k <= unused && m0[k] <= unused
    requires Ids(rows) <= m0.Keys
    ensures Follows(m0, rows, m, rows, unused)
  {
    forall i | 0 <= i < |rows|
      ensures rows[i].id in m0
    {
      assert rows[i].id in Ids(rows);
    }
  }

  lemma FollowsEnd<K, D>(m0: map<int, int>, rows0: seq<Row<K, D>>, rows: seq<Row<K, D>>, unused: int)
    requires Follows(m0, rows0, map[], rows, unused)
    ensures rows == Renamed(rows0, m0)
  {
  }

  /** Rows that collide on the way collide in the end. */
  lemma StaysUnique<K, D>(m0: map<int, int>, rows0: seq<Row<K, D>>, m: map<int, int>, rows: seq<Row<K, D>>, unused: int)
    requires Follows(m0, rows0, m, rows, unused) && Unique(Renamed(rows0, m0))
    ensures Unique(rows)
  {
    forall i, j | 0 <= i < j < |rows|
      ensures rows[i].id != rows[j].id || rows[i].key != rows[j].key
    {
      var r := Renamed(rows0, m0);
      assert r[i].id != r[j].id || r[i].key != r[j].key;
    }
  }

  lemma UniqueRenamed<K, D>(m: map<int, int>, rows: seq<Row<K, D>>)
    requires Unique(rows) && Injective(m, Ids(rows))
    ensures Unique(Renamed(rows, m))
  {
    var r := Renamed(rows, m);
    forall i, j | 0 <= i < j < |rows|
      ensures r[i].id != r[j].id || r[i].key != r[j].key
    {
      assert rows[i].id in Ids(rows) && rows[j].id in Ids(rows);
    }
  }

  // ------ termination

  /** The ids that are both to be renamed and the target of a rename. */
  function Both<K>(m: map<K, K>): set<K> {
    m.Keys * m.Values
  }

  ghost predicate OneToOne<K, V>(m: map<K, V>) {
    forall a, b :: a in m && b in m && m[a] == m[b] ==> a == b
  }

  lemma KeyOf<K, V>(m: map<K, V>, v: V) returns (k: K)
    requires v in m.Values
    ensures k in m && m[k] == v
  {
    k :| k in m && m[k] == v;
  }

  lemma {:induction false} ValuesOf<K, V>(m: map<K, V>)
    requires OneToOne(m)
    ensures |m.Values| == |m.Keys|
    decreases |m|
  {
    if m.Keys == {} {
      assert m.Values == {};
    } else {
      var k :| k in m.Keys;
      var m' := m - {k};
      assert m'.Values == m.Values - {m[k]} by {
        forall v | v in m.Values - {m[k]}
          ensures v in m'.Values
        {
          var j := KeyOf(m, v);
          assert j in m' && m'[j] == v;
        }
      }
      assert m'.Keys == m.Keys - {k};
      ValuesOf(m');
    }
  }

  lemma {:induction false} SubsetOfSameSize<T>(a: set<T>, b: set<T>)
    requires a <= b && |a| == |b|
    ensures a == b
  {
    if a != {} {
      var x :| x in a;
      SubsetOfSameSize(a - {x}, b - {x});
    }
  }

  /** Every target is still to be renamed. */
  ghost predicate Stuck<K>(m: map<K, K>) {
    forall k :: k in m ==> m[k] in m
  }

  /** When every target is still to be renamed, the map is a permutation of its keys, and a
      fresh id takes one key out of it. */
  lemma CycleOpened<K>(m: map<K, K>, oldK: K, id: K)
    requires OneToOne(m) && oldK in m && Stuck(m) && id !in m && id !in m.Values
    ensures var m' := Opened(m, oldK, id);
      |m'| == |m| && |Both(m')| < |Both(m)| && OneToOne(m')
  {
    hide OneToOne, Stuck;
    var m' := Opened(m, oldK, id);
    assert m'.Keys == m.Keys - {oldK} + {id};
    InAPermutation(m, oldK);
    SameTargets(m, oldK, id);
    assert Both(m') <= Both(m) - {oldK};
    SmallerSet(Both(m'), Both(m) - {oldK});
  }

  lemma InAPermutation<K>(m: map<K, K>, oldK: K)
    requires OneToOne(m) && oldK in m && Stuck(m)
    ensures oldK in m.Values
  {
    hide OneToOne;
    ValuesOf(m);
    forall v | v in m.Values
      ensures v in m.Keys
    {
      var k := KeyOf(m, v);
    }
    SubsetOfSameSize(m.Values, m.Keys);
  }

  lemma SameTargets<K>(m: map<K, K>, oldK: K, id: K)
    requires oldK in m && id !in m && id !in m.Values
    ensures Opened(m, oldK, id).Values <= m.Values && id !in Opened(m, oldK, id).Values
    ensures OneToOne(m) ==> OneToOne(Opened(m, oldK, id))
  {
    var m' := Opened(m, oldK, id);
    forall v | v in m'.Values
      ensures v in m.Values
    {
      var k := KeyOf(m', v);
      assert v == m[if k == id then oldK else k];
    }
  }

  lemma {:induction false} SmallerSet<T>(a: set<T>, b: set<T>)
    requires a <= b
    ensures |a| <= |b|
  {
    if a != {} {
      var x :| x in a;
      SmallerSet(a - {x}, b - {x});
    }
  }

  lemma EntryDone(m: map<int, int>, oldK: int)
    requires oldK in m
    ensures |m - {oldK}| < |m| && (OneToOne(m) ==> OneToOne(m - {oldK}))
  {
    assert (m - {oldK}).Keys == m.Keys - {oldK};
  }

  // ------ every run

  /** One pass of the loop: an entry is crossed off, or opened at a fresh id. */
  datatype Move = Cross(id: int, target: int) | Open(id: int, target: int)

  /** What the loop may do next: an entry whose target is not to be renamed; any entry if
      there is none. */
  ghost predicate Allowed(m: map<int, int>, unused: int, mv: Move) {
    && mv.id in m
    && match mv
       case Cross(id, target) => target == m[id] && target !in m
       case Open(id, target) => Stuck(m) && target == unused + 1
  }

  function Next(m: map<int, int>, mv: Move): map<int, int>
    requires mv.id in m
  {
    match mv
    case Cross(id, target) => m - {id}
    case Open(id, target) => Opened(m, id, target)
  }

  function Used(unused: int, mv: Move): int {
    match mv
    case Cross(id, target) => unused
    case Open(id, target) => unused + 1
  }

  /** The moves lead from one map to the other. */
  ghost predicate Path(m: map<int, int>, unused: int, ms: seq<Move>, m': map<int, int>, unused': int)
    decreases |ms|
  {
    if ms == [] then m == m' && unused == unused'
    else Allowed(m, unused, ms[0]) && Path(Next(m, ms[0]), Used(unused, ms[0]), ms[1..], m', unused')
  }

  lemma {:induction false} PathMore(m: map<int, int>, unused: int, ms: seq<Move>, m': map<int, int>,
                                    unused': int, mv: Move)
    requires Path(m, unused, ms, m', unused') && Allowed(m', unused', mv)
    ensures Path(m, unused, ms + [mv], Next(m', mv), Used(unused', mv))
    decreases |ms|
  {
    if ms == [] {
      assert (ms + [mv])[1..] == [];
    } else {
      assert (ms + [mv])[1..] == ms[1..] + [mv];
      PathMore(Next(m, ms[0]), Used(unused, ms[0]), ms[1..], m', unused', mv);
    }
  }

  /** A table when every move renames it. */
  function AllAfter<K, D>(rows: seq<Row<K, D>>, ms: seq<Move>): seq<Row<K, D>>
    decreases |ms|
  {
    if ms == [] then rows else AllAfter(Renamed(rows, map[ms[0].id := ms[0].target]), ms[1..])
  }

  lemma {:induction false} AllAfterMore<K, D>(rows: seq<Row<K, D>>, ms: seq<Move>, mv: Move)
    ensures AllAfter(rows, ms + [mv]) == Renamed(AllAfter(rows, ms), map[mv.id := mv.target])
    decreases |ms|
  {
    if ms == [] {
      assert (ms + [mv])[1..] == [];
    } else {
      assert (ms + [mv])[1..] == ms[1..] + [mv];
      AllAfterMore(Renamed(rows, map[ms[0].id := ms[0].target]), ms[1..], mv);
    }
  }

  /** No move's target is in use when the move is made. */
  ghost predicate FreeTargets<K, D>(rows: seq<Row<K, D>>, ms: seq<Move>) {
    forall i :: 0 <= i < |ms| ==> ms[i].target !in Ids(AllAfter(rows, ms[..i]))
  }

  lemma NoMoves<K, D>(rows: seq<Row<K, D>>)
    ensures AllAfter(rows, []) == rows && FreeTargets(rows, [])
  {
  }

  lemma FreeMore<K, D>(rows: seq<Row<K, D>>, ms: seq<Move>, mv: Move)
    requires FreeTargets(rows, ms) && mv.target !in Ids(AllAfter(rows, ms))
    ensures FreeTargets(rows, ms + [mv])
  {
    forall i | 0 <= i <= |ms|
      ensures (ms + [mv])[i].target !in Ids(AllAfter(rows, (ms + [mv])[..i]))
    {
      assert (ms + [mv])[..i] == if i < |ms| then ms[..i] else ms;
    }
  }

  lemma {:induction false} RunFollows<K, D>(m0: map<int, int>, rows0: seq<Row<K, D>>, m: map<int, int>,
                                            rows: seq<Row<K, D>>, unused: int, ms: seq<Move>,
                                            m': map<int, int>, unused': int)
    requires Path(m, unused, ms, m', unused') && Follows(m0, rows0, m, rows, unused)
    ensures Follows(m0, rows0, m', AllAfter(rows, ms), unused')
    decreases |ms|
  {
    hide Follows, Stuck;
    if ms != [] {
      match ms[0] {
        case Cross(id, target) => FoundKeeps(m0, rows0, m, rows, unused, id);
        case Open(id, target) => FreshKeeps(m0, rows0, m, rows, unused, id);
      }
      RunFollows(m0, rows0, Next(m, ms[0]), Renamed(rows, map[ms[0].id := ms[0].target]), Used(unused, ms[0]), ms[1..],
        m', unused');
    }
  }

  /** Whatever the choices: a run that gets through ends in the simultaneous renaming; so a
      map that sends two ids of the table to one has no run that gets through without a
      violated primary key. */
  lemma RunIsRenaming<K, D>(m0: map<int, int>, rows0: seq<Row<K, D>>, m: map<int, int>, unused: int,
                            ms: seq<Move>, unused': int)
    requires Path(m, unused, ms, map[], unused') && Follows(m0, rows0, m, rows0, unused)
    ensures AllAfter(rows0, ms) == Renamed(rows0, m0)
    ensures (forall i, j :: 0 <= i < j < |rows0| ==> rows0[i].key == rows0[j].key) && Unique(rows0) ==>
      (Unique(AllAfter(rows0, ms)) <==> Injective(m0, Ids(rows0)))
  {
    RunFollows(m0, rows0, m, rows0, unused, ms, map[], unused');
    var rows := AllAfter(rows0, ms);
    FollowsEnd(m0, rows0, rows, unused');
    if (forall i, j :: 0 <= i < j < |rows0| ==> rows0[i].key == rows0[j].key) && Unique(rows0) {
      if Injective(m0, Ids(rows0)) {
        UniqueRenamed(m0, rows0);
      }
      if Unique(rows) {
        forall i, j | 0 <= i < |rows0| && 0 <= j < |rows0| && Apply(m0, rows0[i].id) == Apply(m0, rows0[j].id)
          ensures i == j
        {
          assert rows[i].id == rows[j].id && rows[i].key == rows[j].key;
        }
      }
    }
  }

  /** The statistics 1, 2 and 3; the first one's id is x. */
  function Three(x: int): seq<Row<(), string>> {
    [Row(x, (), "a"), Row(2, (), "b"), Row(3, (), "c")]
  }

  /** For ids 1, 2 and 3, and two entries with one target: a run can go on opening the entry
      that leads into their cycle for ever, and violates no primary key. */
  lemma {:induction false} EndlessRun(n: nat) returns (ms: seq<Move>, x: int)
    ensures |ms| == n && x !in {2, 3} && x <= n + 4
    ensures Path(map[1 := 2, 2 := 3, 3 := 2], 4, ms, map[x := 2, 2 := 3, 3 := 2], n + 4)
    ensures AllAfter(Three(1), ms) == Three(x) && FreeTargets(Three(1), ms)
  {
    if n == 0 {
      ms, x := [], 1;
    } else {
      var y;
      ms, y := EndlessRun(n - 1);
      x := n + 4;
      var m, mv := map[y := 2, 2 := 3, 3 := 2], Open(y, x);
      assert Opened(m, y, x) == map[x := 2, 2 := 3, 3 := 2];
      PathMore(map[1 := 2, 2 := 3, 3 := 2], 4, ms, m, n + 3, mv);
      AllAfterMore(Three(1), ms, mv);
      FreeMore(Three(1), ms, mv);
      OpenedThree(y, x);
      ms := ms + [mv];
    }
  }

  lemma OpenedThree(y: int, x: int)
    requires y !in {2, 3}
    ensures Renamed(Three(y), map[y := x]) == Three(x)
  {
  }

  // ------ which maps can run for ever

  /** Two ids that the map never leads out of its keys have the same target: so one of them is
      outside a cycle that it leads into. */
  ghost predicate Tailed(m: map<int, int>) {
    exists s :: Looping(m, s) && !OneToOneOn(m, s)
  }

  /** From these keys the map leads to these keys only. */
  ghost predicate Looping(m: map<int, int>, s: set<int>) {
    forall k :: k in s ==> k in m && m[k] in s
  }

  ghost predicate OneToOneOn(m: map<int, int>, s: set<int>) {
    forall a, b :: a in s && b in s && a in m && b in m && m[a] == m[b] ==> a == b
  }

  /** unused is beyond every id. */
  ghost predicate Below(m: map<int, int>, unused: int) {
    forall k :: k in m ==> k <= unused && m[k] <= unused
  }

  /** The loop can make this many passes. */
  ghost predicate CanRun(m: map<int, int>, unused: int, n: nat) {
    exists ms, m', unused' :: |ms| >= n && Path(m, unused, ms, m', unused')
  }

  /** Without such ids every pass lowers the same measure. */
  lemma {:induction false} AtMost(m: map<int, int>, unused: int, ms: seq<Move>, m': map<int, int>, unused': int)
    requires Path(m, unused, ms, m', unused') && Below(m, unused) && !Tailed(m)
    ensures |ms| <= |m| + |Both(m)|
    decreases |ms|
  {
    hide Tailed, Both;
    if ms != [] {
      match ms[0] {
        case Cross(id, target) =>
          CrossStep(m, id);
        case Open(id, target) =>
          OpenStep(m, unused, id);
      }
      AtMost(Next(m, ms[0]), Used(unused, ms[0]), ms[1..], m', unused');
    }
  }

  lemma CrossStep(m: map<int, int>, id: int)
    requires id in m && !Tailed(m)
    ensures var m' := m - {id}; !Tailed(m') && |m'| < |m| && |Both(m')| <= |Both(m)|
  {
    var m' := m - {id};
    EntryDone(m, id);
    assert Both(m') <= Both(m) by {
      forall v | v in m'.Values
        ensures v in m.Values
      {
        var k := KeyOf(m', v);
      }
    }
    SmallerSet(Both(m'), Both(m));
    forall s | Looping(m', s)
      ensures OneToOneOn(m', s)
    {
      assert Looping(m, s);
    }
  }

  lemma OpenStep(m: map<int, int>, unused: int, id: int)
    requires id in m && Stuck(m) && Below(m, unused) && !Tailed(m)
    ensures var m' := Opened(m, id, unused + 1);
      !Tailed(m') && |m'| == |m| && |Both(m')| < |Both(m)| && Below(m', unused + 1)
  {
    hide Opened;
    PermutationIfStuck(m);
    if unused + 1 in m.Values {
      var k := KeyOf(m, unused + 1);
    }
    CycleOpened(m, id, unused + 1);
    OneToOneNotTailed(Opened(m, id, unused + 1));
    BelowOpened(m, unused, id);
  }

  lemma PermutationIfStuck(m: map<int, int>)
    requires Stuck(m) && !Tailed(m)
    ensures OneToOne(m)
  {
    assert Looping(m, m.Keys);
    assert OneToOneOn(m, m.Keys);
  }

  lemma OneToOneNotTailed(m: map<int, int>)
    requires OneToOne(m)
    ensures !Tailed(m)
  {
  }

  lemma BelowOpened(m: map<int, int>, unused: int, id: int)
    requires Below(m, unused) && id in m
    ensures Below(Opened(m, id, unused + 1), unused + 1)
  {
  }

  lemma SameOn(m: map<int, int>, m': map<int, int>, s: set<int>)
    requires Looping(m, s) && forall k :: k in s ==> k in m' && m'[k] == m[k]
    ensures Looping(m', s) && (OneToOneOn(m, s) <==> OneToOneOn(m', s))
  {
  }

  lemma StillTailed(m: map<int, int>, k: int, unused: int)
    requires Tailed(m) && Below(m, unused) && k in m && m[k] !in m
    ensures Tailed(m - {k}) && Below(m - {k}, unused)
  {
    hide OneToOneOn;
    var s :| Looping(m, s) && !OneToOneOn(m, s);
    SameOn(m, m - {k}, s);
  }

  /** An entry whose target is not to be renamed is on no way into a cycle. */
  lemma {:induction false} CrossAll(m: map<int, int>, unused: int) returns (ms: seq<Move>, m': map<int, int>)
    requires Tailed(m) && Below(m, unused)
    ensures Path(m, unused, ms, m', unused) && Tailed(m') && Stuck(m') && Below(m', unused)
    decreases |m|
  {
    hide Tailed, Below, OneToOne;
    if Stuck(m) {
      ms, m' := [], m;
    } else {
      var k := Escaping(m);
      StillTailed(m, k, unused);
      EntryDone(m, k);
      ms, m' := CrossAll(m - {k}, unused);
      ms := [Cross(k, m[k])] + ms;
    }
  }

  lemma Escaping<K>(m: map<K, K>) returns (k: K)
    requires !Stuck(m)
    ensures k in m && m[k] !in m
  {
    k :| k in m && m[k] !in m;
  }

  lemma SharedTarget<K, V>(m: map<K, V>) returns (a: K, b: K)
    requires !OneToOne(m)
    ensures a in m && b in m && m[a] == m[b] && a != b
  {
    a, b :| a in m && b in m && m[a] == m[b] && a != b;
  }

  /** No entry leads to k. */
  lemma Source<K>(m: map<K, K>) returns (k: K)
    requires !OneToOne(m)
    ensures k in m && k !in m.Values
  {
    var a, b := SharedTarget(m);
    Fewer(m, a, b);
    if m.Keys <= m.Values {
      SmallerSet(m.Keys, m.Values);
    }
    k :| k in m.Keys && k !in m.Values;
  }

  lemma Fewer<K, V>(m: map<K, V>, a: K, b: K)
    requires a in m && b in m && m[a] == m[b] && a != b
    ensures |m.Values| < |m.Keys|
  {
    var m' := m - {a};
    assert m'.Values == m.Values by {
      forall v | v in m.Values
        ensures v in m'.Values
      {
        var k := KeyOf(m, v);
        var j := if k == a then b else k;
        assert j in m' && m'[j] == v;
      }
    }
    assert m'.Keys == m.Keys - {a};
    NoMoreValues(m');
  }

  lemma {:induction false} NoMoreValues<K, V>(m: map<K, V>)
    ensures |m.Values| <= |m.Keys|
    decreases |m|
  {
    if m.Keys == {} {
      assert m.Values == {};
    } else {
      var keys := m.Keys;
      var k :| k in keys;
      var m' := m - {k};
      assert m.Values <= m'.Values + {m[k]} by {
        forall v | v in m.Values
          ensures v in m'.Values + {m[k]}
        {
          var j := KeyOf(m, v);
          assert j == k || (j in m' && m'[j] == v);
        }
      }
      assert m'.Keys == m.Keys - {k};
      NoMoreValues(m');
      SmallerSet(m.Values, m'.Values + {m[k]});
    }
  }

  /** Opening an entry that none leads to changes nothing but its id. */
  lemma {:induction false} OpenOn(m: map<int, int>, unused: int, n: nat)
    returns (ms: seq<Move>, m': map<int, int>, unused': int)
    requires Stuck(m) && !OneToOne(m) && Below(m, unused)
    ensures |ms| == n && Path(m, unused, ms, m', unused')
    decreases n
  {
    hide Opened, Stuck, OneToOne;
    if n == 0 {
      ms, m', unused' := [], m, unused;
    } else {
      var k := Source(m);
      SourceOpened(m, k, unused + 1);
      BelowOpened(m, unused, k);
      ms, m', unused' := OpenOn(Opened(m, k, unused + 1), unused + 1, n - 1);
      ms := [Open(k, unused + 1)] + ms;
    }
  }

  lemma SourceOpened<K>(m: map<K, K>, k: K, id: K)
    requires Stuck(m) && !OneToOne(m) && k in m && k !in m.Values && id !in m
    ensures Stuck(Opened(m, k, id)) && !OneToOne(Opened(m, k, id))
  {
    var m' := Opened(m, k, id);
    forall j | j in m'
      ensures m'[j] in m'
    {
      var i := if j == id then k else j;
      assert m'[j] == m[i] && m[i] in m.Values;
    }
    var a, b := SharedTarget(m);
    var a', b' := if a == k then id else a, if b == k then id else b;
    assert a' in m' && b' in m' && m'[a'] == m'[b'] && a' != b';
  }

  lemma RunsOn(m: map<int, int>, unused: int, n: nat)
    requires Tailed(m) && Below(m, unused)
    ensures CanRun(m, unused, n)
  {
    hide Tailed, Path, Below, Stuck, OneToOne;
    var ms, m1 := CrossAll(m, unused);
    TailedShares(m1);
    var ns, m', unused' := OpenOn(m1, unused, n);
    PathJoin(m, unused, ms, m1, unused, ns, m', unused');
    assert |ms + ns| >= n;
  }

  lemma TailedShares(m: map<int, int>)
    requires Tailed(m)
    ensures !OneToOne(m)
  {
    var s :| Looping(m, s) && !OneToOneOn(m, s);
  }

  lemma RunsOut(m: map<int, int>, unused: int)
    requires !Tailed(m) && Below(m, unused)
    ensures !CanRun(m, unused, |m| + |Both(m)| + 1)
  {
    hide Tailed, Path, Below, Both;
    if CanRun(m, unused, |m| + |Both(m)| + 1) {
      var ms, m', unused' :| |ms| >= |m| + |Both(m)| + 1 && Path(m, unused, ms, m', unused');
      AtMost(m, unused, ms, m', unused');
    }
  }

  /** The loop can run as long as one likes if and only if some id outside a cycle leads into
      it. */
  lemma EndlessIff(m: map<int, int>, unused: int)
    requires Below(m, unused)
    ensures (forall n: nat :: CanRun(m, unused, n)) <==> Tailed(m)
  {
    hide Tailed, CanRun, Below, Both;
    if Tailed(m) {
      forall n: nat
        ensures CanRun(m, unused, n)
      {
        RunsOn(m, unused, n);
      }
    } else {
      RunsOut(m, unused);
    }
  }

  lemma {:induction false} PathJoin(m: map<int, int>, unused: int, ms: seq<Move>, m1: map<int, int>, unused1: int,
                                    ns: seq<Move>, m2: map<int, int>, unused2: int)
    requires Path(m, unused, ms, m1, unused1) && Path(m1, unused1, ns, m2, unused2)
    ensures Path(m, unused, ms + ns, m2, unused2)
    decreases |ms|
  {
    if ms == [] {
      assert ms + ns == ns;
    } else {
      assert (ms + ns)[1..] == ms[1..] + ns;
      PathJoin(Next(m, ms[0]), Used(unused, ms[0]), ms[1..], m1, unused1, ns, m2, unused2);
    }
  }

  /** What makes two statistics the same. */
  datatype Ident = Ident(name: string, experiment: int, node: int)

  // ------ the loop's pieces

  method Pop<T(==)>(s: set<T>) returns (x: T, rest: set<T>)
    requires s != {}
    ensures x in s && rest == s - {x}
  {
    x :| x in s;
    rest := s - {x};
  }

  method Largest(ids: set<int>) returns (most: int)
    requires ids != {}
    ensures most in ids && forall id :: id in ids ==> id <= most
  {
    var rest;
    most, rest := Pop(ids);
    while rest != {}
      invariant rest <= ids && most in ids && forall id :: id in ids - rest ==> id <= most
    {
      var id;
      ghost var done := ids - rest;
      id, rest := Pop(rest);
      assert ids - rest == done + {id};
      if id > most {
        most := id;
      }
    }
    assert ids - rest == ids;
  }

  method DropIdentities(m: map<int, int>) returns (r: map<int, int>)
    ensures r == map k | k in m && m[k] != k :: m[k]
  {
    r := m;
    var keys := m.Keys;
    while keys != {}
      invariant keys <= m.Keys && r == map k | k in m && (k in keys || m[k] != k) :: m[k]
    {
      var k;
      k, keys := Pop(keys);
      if k == r[k] {
        r := r - {k};
      }
    }
  }

  /** An entry whose target is not to be renamed, or, if there is none, any key. */
  method FindEntry(m: map<int, int>) returns (found: bool, oldK: int)
    requires m.Keys != {}
    ensures oldK in m && (if found then m[oldK] !in m else Stuck(m))
  {
    var keys := m.Keys;
    while keys != {}
      invariant keys <= m.Keys && forall k :: k in m.Keys - keys ==> m[k] in m
    {
      oldK, keys := Pop(keys);
      if m[oldK] !in m {
        return true, oldK;
      }
    }
    found := false;
    oldK, keys := Pop(m.Keys);
  }

  lemma Start<K, D>(m0: map<int, int>, rows: seq<Row<K, D>>, m: map<int, int>, unused: int)
    requires m == map k | k in m0 && m0[k] != k :: m0[k]
    requires (forall k :: k in m0.Values + m0.Keys ==> k < unused) && Ids(rows) <= m0.Keys
    requires OneToOne(m0) && Unique(rows)
    ensures Follows(m0, rows, m, rows, unused) && OneToOne(m) && Unique(Renamed(rows, m0))
  {
    forall k | k in m0
      ensures k <= unused && m0[k] <= unused
    {
      assert k in m0.Values + m0.Keys && m0[k] in m0.Values + m0.Keys;
    }
    FollowsStart(m0, rows, m, unused);
    UniqueRenamed(m0, rows);
  }

  lemma NextFound<K, D>(m0: map<int, int>, rows0: seq<Row<K, D>>, m: map<int, int>, rows: seq<Row<K, D>>,
                        unused: int, oldK: int)
    requires Follows(m0, rows0, m, rows, unused) && Unique(Renamed(rows0, m0)) && oldK in m && m[oldK] !in m
    ensures Follows(m0, rows0, m - {oldK}, Renamed(rows, map[oldK := m[oldK]]), unused)
    ensures Unique(Renamed(rows, map[oldK := m[oldK]]))
  {
    FoundKeeps(m0, rows0, m, rows, unused, oldK);
    StaysUnique(m0, rows0, m - {oldK}, Renamed(rows, map[oldK := m[oldK]]), unused);
  }

  lemma NextFresh<K, D>(m0: map<int, int>, rows0: seq<Row<K, D>>, m: map<int, int>, rows: seq<Row<K, D>>,
                        unused: int, oldK: int)
    requires Follows(m0, rows0, m, rows, unused - 1) && Unique(Renamed(rows0, m0)) && oldK in m
    ensures Follows(m0, rows0, Opened(m, oldK, unused), Renamed(rows, map[oldK := unused]), unused)
    ensures Unique(Renamed(rows, map[oldK := unused]))
  {
    FreshKeeps(m0, rows0, m, rows, unused - 1, oldK);
    StaysUnique(m0, rows0, Opened(m, oldK, unused), Renamed(rows, map[oldK := unused]), unused);
  }

  /** A target is in use only if it is itself still to be renamed. */
  ghost predicate TargetsFree<K, D>(m: map<int, int>, rows: seq<Row<K, D>>) {
    forall k :: k in m && m[k] in Ids(rows) ==> m[k] in m
  }

  lemma StartFree<K, D>(m0: map<int, int>, rows: seq<Row<K, D>>, m: map<int, int>)
    requires m == map k | k in m0 && m0[k] != k :: m0[k]
    requires OneToOne(m0) && Ids(rows) <= m0.Keys
    ensures TargetsFree(m, rows)
  {
  }

  lemma FreeFound<K, D>(m: map<int, int>, rows: seq<Row<K, D>>, oldK: int)
    requires TargetsFree(m, rows) && OneToOne(m) && oldK in m && m[oldK] !in m
    ensures m[oldK] !in Ids(rows)
    ensures TargetsFree(m - {oldK}, Renamed(rows, map[oldK := m[oldK]]))
  {
    IdsAfter(rows, oldK, m[oldK]);
  }

  lemma FreeFresh<K, D>(m0: map<int, int>, rows0: seq<Row<K, D>>, m: map<int, int>, rows: seq<Row<K, D>>,
                        unused: int, oldK: int)
    requires TargetsFree(m, rows) && oldK in m && Follows(m0, rows0, m, rows, unused - 1)
    ensures unused !in Ids(rows) && unused !in m && unused !in m.Values
    ensures TargetsFree(Opened(m, oldK, unused), Renamed(rows, map[oldK := unused]))
  {
    IdsAfter(rows, oldK, unused);
    if unused in m.Values {
      var k := KeyOf(m, unused);
    }
  }

  lemma IdsAfter<K, D>(rows: seq<Row<K, D>>, oldID: int, newID: int)
    requires oldID != newID
    ensures forall id :: id in Ids(Renamed(rows, map[oldID := newID])) ==>
      id == newID || (id in Ids(rows) && id != oldID)
  {
    var r := Renamed(rows, map[oldID := newID]);
    forall i | 0 <= i < |r|
      ensures r[i].id == newID || (r[i].id in Ids(rows) && r[i].id != oldID)
    {
      assert rows[i].id in Ids(rows);
    }
  }

  /** References stay references. */
  lemma ReferencesKept<K, D, K', D'>(a: seq<Row<K, D>>, b: seq<Row<K', D'>>, m: map<int, int>)
    requires Ids(a) <= Ids(b)
    ensures Ids(Renamed(a, m)) <= Ids(Renamed(b, m))
  {
    var r := Renamed(b, m);
    forall i | 0 <= i < |a|
      ensures Apply(m, a[i].id) in Ids(r)
    {
      assert a[i].id in Ids(a);
      var j := RowOf(b, a[i].id);
      assert r[j].id in Ids(r);
    }
  }

  lemma RowOf<K, D>(rows: seq<Row<K, D>>, id: int) returns (i: nat)
    requires id in Ids(rows)
    ensures i < |rows| && rows[i].id == id
  {
    i :| 0 <= i < |rows| && rows[i].id == id;
  }
}
