/** A run that succeeds although its bound groups end up apart: of four members of a and three
    of b, with one b per host, the last booking gets no a. */
module BoundExample {
  import opened MaximalSets
  import opened Groups
  import opened Bookings
  import opened Containers
  import opened Patterns
  import opened Ledger
  import opened Steps
  import opened Dealing
  import opened Placement
  import opened NodePlacement

  // ------ the groups

  ghost function PairGraph(a: Group, b: Group): Graph<Group> {
    Graph({a, b}, {(a, b), (b, a)}, {(b, b)})
  }

  /** a and b are bound to each other, and b's members exclude each other. */
  ghost predicate ExampleGroups(a: Group, b: Group)
    reads a, b
  {
    && a != b && a.maxNum == None && a.minNum == None && b.maxNum == Some(1) && b.minNum == None
    && Wired({a, b}) && SelfLimited({a, b}) && GraphOf({a, b}) == PairGraph(a, b)
    && forall g :: g in {a, b} ==> g.prototypes == map[Arch64 := Prototype(0, 0)]
  }

  method MakeGroups() returns (a: Group, b: Group)
    ensures fresh(a) && fresh(b) && a.count == 4 && b.count == 3 && ExampleGroups(a, b)
  {
    hide Wired, SelfLimited, Linked;
    a := new Group("a", 4, map[Arch64 := Prototype(0, 0)]);
    b := new Group("b", 3, map[Arch64 := Prototype(0, 0)]);
    WithoutContracts({a, b});
    var bound := new Contract(Bound, a, b, {a, b});
    var alone := new Contract(Exclusion, b, b, {a, b});
    ExampleGraph(a, b, bound, alone);
  }

  lemma ExampleGraph(a: Group, b: Group, bound: Contract, alone: Contract)
    requires a != b && a.contracts == {bound} && b.contracts == {bound} + {alone}
    requires bound.link == Bound && bound.groupA == a && bound.groupB == b
    requires alone.link == Exclusion && alone.groupA == b && alone.groupB == b
    ensures GraphOf({a, b}) == PairGraph(a, b)
  {
    assert bound.OtherGroup(a) == b && bound.OtherGroup(b) == a && alone.OtherGroup(b) == b;
    assert Linked(a, b, Bound) && Linked(b, a, Bound) && Linked(b, b, Exclusion);
    assert !Linked(a, a, Bound) && !Linked(b, b, Bound);
    assert !Linked(a, a, Exclusion) && !Linked(a, b, Exclusion) && !Linked(b, a, Exclusion);
    assert Pairs({a, b}, Bound) == {(a, b), (b, a)};
    assert Pairs({a, b}, Exclusion) == {(b, b)};
  }

  lemma ExampleWithoutConflict(a: Group, b: Group)
    requires a != b
    ensures !HasConflict(PairGraph(a, b), {a, b})
  {
  }

  /** The one bound class. */
  lemma ExampleClass(a: Group, b: Group, x: set<Group>)
    requires a != b && IsBoundClass(PairGraph(a, b), x)
    ensures x == {a, b}
  {
    var graph := PairGraph(a, b);
    var g :| g in x && graph.IsClass(x, g);
    assert (a, b) in graph.bound && (b, a) in graph.bound;
    assert a in x && b in x;
  }

  // ------ dealing

  lemma SmallQuotients()
    ensures CeilDiv(4, 4) == 1 && CeilDiv(3, 1) == 3 && CeilDiv(4, 3) == 2 && CeilDiv(3, 3) == 1
  {
  }

  /** The members of the two groups. */
  ghost predicate Sizes(a: Group, b: Group, size: map<Group, int>,
                        limit: map<Group, Option<Positive>>, least: map<Group, Positive>) {
    && a != b && a in size && b in size && a in limit && b in limit && a in least && b in least
    && size[a] == 4 && size[b] == 3 && limit[a] == None && limit[b] == Some(1) && least[a] == least[b] == 1
  }

  lemma ThreeNeeded(a: Group, b: Group, gs: seq<Group>, size: map<Group, int>,
                    limit: map<Group, Option<Positive>>, least: map<Group, Positive>)
    requires Sizes(a, b, size, limit, least) && SetOf(gs) == {a, b}
    ensures forall g :: g in gs <==> g == a || g == b
    ensures Needed(gs, size, limit) == 3
  {
    hide CeilDiv;
    SmallQuotients();
    assert forall g :: g in gs <==> g in SetOf(gs);
    assert SetOf([a, b]) == {a, b};
    assert [a, b][..1] == [a] && [a][..0] == [];
    assert Needed([a], size, limit) == 1;
    SameClassSameNeed(gs, [a, b], size, limit);
  }

  lemma ExampleDeal(a: Group, b: Group, gs: seq<Group>, size: map<Group, int>,
                    limit: map<Group, Option<Positive>>, least: map<Group, Positive>)
    requires Sizes(a, b, size, limit, least) && SetOf(gs) == {a, b}
    ensures !DealtEvenly(gs, size, limit, least) && Dealable(gs, size, limit, least)
  {
    hide Needed, CeilDiv;
    SmallQuotients();
    ThreeNeeded(a, b, gs, size, limit, least);
    assert a in gs && b in gs;
    forall g, i | g in gs && 0 <= i < 3
      ensures Enough(LeftAfter(size[g], Max(least[g], CeilDiv(size[g], 3)), i), least[g])
    {
      assert i == 0 || i == 1 || i == 2;
    }
  }

  lemma ThirdIn<T>(s: seq<T>)
    ensures |s| > 2 ==> s[0] in SetOf(s) && s[1] in SetOf(s) && s[2] in SetOf(s)
  {
  }

  /** A booking of at most two members each needs at most four places. */
  lemma SmallUse(a: Group, b: Group, gs: seq<Group>, o: Order)
    requires NoRepeats(gs) && SetOf(gs) == {a, b} && forall g :: g in gs ==> 0 <= Amount(o, g) <= 2
    requires forall g :: g in gs ==> g.prototypes == map[Arch64 := Prototype(0, 0)]
    ensures Use(0, 0, 10).Minus(UseOf(gs, o, Arch64)).NonNegative()
  {
    ThirdIn(gs);
    assert |gs| <= 2;
    PlacesOnly(gs, o);
  }

  lemma {:induction false} PlacesOnly(gs: seq<Group>, o: Order)
    requires forall g :: g in gs ==> 0 <= Amount(o, g) <= 2 && g.prototypes == map[Arch64 := Prototype(0, 0)]
    ensures var u := UseOf(gs, o, Arch64); u.disc == 0 && u.ram == 0 && 0 <= u.members <= 2 * |gs|
  {
    if gs != [] {
      assert gs[|gs| - 1] in gs;
      PlacesOnly(gs[..|gs| - 1], o);
    }
  }

  // ------ placing

  /** Each booking that waits fits on its own empty host. */
  ghost predicate OwnHosts(s: Setup, hosts: seq<Host>, pending: seq<Booking>, st: State) {
    |pending| <= |hosts| && forall i :: 0 <= i < |pending| ==>
      hosts[i] in st.hosting && st.hosting[hosts[i]] == [] && CanApply(s, st, hosts[i], pending[i])
  }

  lemma OwnHostsLeft(s: Setup, hosts: seq<Host>, pending: seq<Booking>, st: State)
    requires OwnHosts(s, hosts, pending, st) && NoRepeats(hosts) && NoRepeats(pending) && pending != []
    ensures OwnHosts(s, hosts[1..], pending[1..], ApplyStep(st, hosts[0], pending[0]))
  {
    hide UseOf;
    forall i | 0 <= i < |pending| - 1
      ensures hosts[1..][i] != hosts[0] && pending[1..][i] != pending[0]
    {
    }
  }

  /** Every booking goes to a host of its own. */
  method OneEach(ghost s: Setup, hosts: seq<Host>, ghost pg: seq<set<nat>>, ghost pattern: HostPattern,
                 pending: seq<Booking>, ghost bs: seq<Booking>, ghost st: State)
    returns (ghost st': State)
    requires InBalance(s, bs, st) && NoRepeats(hosts) && OwnHosts(s, hosts, pending, st) && pattern.groups != []
    requires Waiting(pending, pattern, bs, st) && NothingLost(bs, st, pending) && HostsCompatible(s, pg, st)
    modifies SetOf(hosts), SetOf(pending)`host
    ensures InBalance(s, bs, st') && NothingLost(bs, st', []) && HostsCompatible(s, pg, st')
    ensures LackersKept(st, st') && st'.count == st.count
    decreases |pending|
  {
    hide InBalance, NothingLost, HostsCompatible, LackersKept, CanApply;
    st' := st;
    if pending == [] {
      LackersSelf(st);
    } else {
      assert pending[0] in pending;
      assert Suits(s, pg, st, hosts[0], pending[0]);
      AfterApply(s, pg, bs, st, hosts[0], pending, pattern, pattern.groups[0]);
      OwnHostsLeft(s, hosts, pending, st);
      st' := Apply(s, hosts[0], pending[0], bs, st);
      LackersApply(s, st, hosts[0], pending[0]);
      ghost var st1 := st';
      assert SetOf(hosts[1..]) <= SetOf(hosts) && SetOf(pending[1..]) <= SetOf(pending);
      st' := OneEach(s, hosts[1..], pg, pattern, pending[1..], bs, st');
      LackersThrough(st, st1, st');
    }
  }

  lemma LackersApply(s: Setup, st: State, h: Host, b: Booking)
    requires CanApply(s, st, h, b)
    ensures LackersKept(st, ApplyStep(st, h, b))
  {
  }

  // ------ the run

  lemma ExampleSetup(a: Group, b: Group, hosts: seq<Host>, lists: map<nat, seq<HostPattern>>)
    requires ExampleGroups(a, b) && a.count == 4 && b.count == 3
    ensures var s := SetupOf({a, b}, lists, hosts); Sizes(a, b, s.size, s.limit, s.least)
    ensures Consistent(a) && Consistent(b)
  {
    hide Wired, SelfLimited, GraphOf, DealtEvenly;
  }

  /** Every pattern has both groups and cannot be dealt out evenly. */
  lemma ExamplePattern(a: Group, b: Group, s: Setup, components: seq<set<Group>>, pg: seq<set<nat>>,
                       lists: map<nat, seq<HostPattern>>, p: HostPattern)
    requires Structured(PairGraph(a, b), components, pg, lists) && s.patterns == AllPatterns(lists) && EvenKnown(s)
    requires Sizes(a, b, s.size, s.limit, s.least) && p in s.patterns
    ensures p.Valid() && p.members == SetOf(p.groups) == {a, b} && p !in s.even
  {
    hide NoneExcluded, DealtEvenly, IsBoundClass, Sizes, Apart, PairGraph;
    var id :| id in lists && p in lists[id];
    var i :| 0 <= i < |pg| && id in pg[i];
    assert ComponentOk(PairGraph(a, b), components[i], pg[i], lists);
    DistinctGroups(a, b, s);
    ExampleClass(a, b, p.members);
    ExampleDeal(a, b, p.groups, s.size, s.limit, s.least);
  }

  /** There is one. */
  lemma SomePattern(a: Group, graph: Graph<Group>, s: Setup, components: seq<set<Group>>,
                    pg: seq<set<nat>>, lists: map<nat, seq<HostPattern>>)
    requires Structured(graph, components, pg, lists) && s.patterns == AllPatterns(lists)
    requires exists i :: 0 <= i < |components| && a in components[i]
    ensures exists id :: id in lists && lists[id] != []
    ensures forall id :: id in lists && lists[id] != [] ==> lists[id][0] in s.patterns
  {
    hide NoneExcluded, ListOk, Apart;
    var i :| 0 <= i < |components| && a in components[i];
    assert ComponentOk(graph, components[i], pg[i], lists);
    var id :| id in pg[i] && id in lists && Covers(lists[id], a);
    forall k | k in lists && lists[k] != []
      ensures lists[k][0] in s.patterns
    {
      assert lists[k][0] in lists[k];
    }
  }

  lemma DistinctGroups(a: Group, b: Group, s: Setup)
    requires Sizes(a, b, s.size, s.limit, s.least)
    ensures a != b
  {
  }

  /** Nothing is booked yet, and the hosts are empty and alike. */
  ghost predicate Fresh(s: Setup, hosts: seq<Host>, st: State) {
    && s.Valid() && SetOf(hosts) == s.hosts && NoRepeats(hosts) && |hosts| == 3
    && st.order == map[] && st.count == s.size && st.hosting.Keys == st.free.Keys == s.hosts
    && forall h :: h in hosts ==>
         h in st.hosting && st.hosting[h] == [] && h in st.free && st.free[h] == Use(0, 0, 10) && h.cpuArch == Arch64
  }

  lemma StartFresh(a: Group, b: Group, hosts: seq<Host>, lists: map<nat, seq<HostPattern>>)
    requires NoRepeats(hosts) && |hosts| == 3
    requires forall h :: h in hosts ==> h.Free() == Use(0, 0, 10) && h.cpuArch == Arch64
    ensures Fresh(SetupOf({a, b}, lists, hosts), hosts, StartOf({a, b}, hosts))
  {
    hide DealtEvenly;
  }

  lemma SmallShares(a: Group, b: Group, s: Setup, gs: seq<Group>, bookings: seq<Booking>, order: Orders)
    requires Sizes(a, b, s.size, s.limit, s.least) && SetOf(gs) == {a, b}
    requires SharedOut(bookings, gs, s.size, s.limit, s.least, order)
    ensures |bookings| == 3
    ensures forall i, g :: 0 <= i < |bookings| && g in gs ==> 0 <= Amount(OrderIn(order, bookings[i]), g) <= 2
  {
    hide Needed, CeilDiv, Amount, OrderIn;
    SmallQuotients();
    ThreeNeeded(a, b, gs, s.size, s.limit, s.least);
    forall i, g | 0 <= i < |bookings| && g in gs
      ensures 0 <= Amount(OrderIn(order, bookings[i]), g) <= 2
    {
      assert i == 0 || i == 1 || i == 2;
    }
  }

  lemma ThreeFit(a: Group, b: Group, s: Setup, hosts: seq<Host>, pattern: HostPattern, bookings: seq<Booking>,
                 bs: seq<Booking>, st0: State, st: State)
    requires Sizes(a, b, s.size, s.limit, s.least) && Fresh(s, hosts, st0) && Extends([], st0, bs, st)
    requires Waiting(bookings, pattern, bs, st) && pattern.Valid() && SetOf(pattern.groups) == {a, b}
    requires SharedOut(bookings, pattern.groups, s.size, s.limit, s.least, st.order)
    requires forall g :: g in {a, b} ==> g.prototypes == map[Arch64 := Prototype(0, 0)]
    ensures OwnHosts(s, hosts, bookings, st)
  {
    hide UseOf, SharedOut, Sizes, Amount;
    SmallShares(a, b, s, pattern.groups, bookings, st.order);
    assert forall g :: g in pattern.groups ==> g in SetOf(pattern.groups);
    forall i | 0 <= i < |bookings|
      ensures CanApply(s, st, hosts[i], bookings[i]) && st.hosting[hosts[i]] == []
    {
      assert hosts[i] in hosts && hosts[i] in SetOf(hosts) && bookings[i] in bookings;
      SmallUse(a, b, pattern.groups, st.order[bookings[i]]);
    }
  }

  /** The bookings of one pattern, each on a host of its own. */
  method BookAndPlace(a: Group, b: Group, hosts: seq<Host>, pattern: HostPattern, ghost s: Setup,
                      ghost st: State, ghost pg: seq<set<nat>>)
    returns (ghost bs': seq<Booking>, ghost st': State)
    requires InBalance(s, [], st) && HostsCompatible(s, pg, st) && NothingLost([], st, [])
    requires Fresh(s, hosts, st) && Sizes(a, b, s.size, s.limit, s.least) && Bookable(s, pattern)
    requires SetOf(pattern.groups) == pattern.members == {a, b} == s.all && pattern !in s.even
    requires forall g :: g in {a, b} ==> g.prototypes == map[Arch64 := Prototype(0, 0)]
    modifies pattern.members`count, SetOf(hosts)
    ensures InBalance(s, bs', st') && NothingLost(bs', st', []) && HostsCompatible(s, pg, st')
    ensures Lacks(s, {a, b}, bs', st') && forall g :: g in s.all ==> Left(st', g) == 0
  {
    hide InBalance, HostsCompatible, NothingLost, Sizes, DealtEvenly, Dealable, SharedOut, AllCarry, SomeLack,
      SomeLimit, Lacks, LackersKept, OwnHosts, Waiting, Unplaced, Extends, Left, Consistent, Fresh;
    FreshCounts(s, hosts, st);
    ExampleDeal(a, b, pattern.groups, s.size, s.limit, s.least);
    assert pattern.groups != [] && forall g :: g in pattern.members <==> g in pattern.groups;
    var ok, bookings;
    ghost var st1;
    ok, bookings, bs', st1 := BookingGen(s, pattern, pattern.groups, [], st);
    AfterGen(s, pg, [], st, bs', st1, bookings, pattern);
    LacksFromStart(s, pattern, bookings, bs', st1);
    ThreeFit(a, b, s, hosts, pattern, bookings, bs', st, st1);
    NewBookings(bookings, bs', pattern, st1);
    st' := OneEach(s, hosts, pg, pattern, bookings, bs', st1);
    StillLacks(s, {a, b}, bs', st1, bs', st');
    SameCounts(s, st1, st');
  }

  lemma FreshCounts(s: Setup, hosts: seq<Host>, st: State)
    requires Fresh(s, hosts, st)
    ensures st.count == s.size && st.order == map[] && NoRepeats(hosts) && s.Valid()
  {
  }

  lemma NewBookings(bookings: seq<Booking>, bs: seq<Booking>, pattern: HostPattern, st: State)
    requires Unplaced(bookings, pattern, bs, st)
    ensures forall b :: b in bookings ==> b in bs
  {
  }

  lemma SameCounts(s: Setup, st: State, st': State)
    requires st'.count == st.count && forall g :: g in s.all ==> Left(st, g) == 0
    ensures forall g :: g in s.all ==> Left(st', g) == 0
  {
  }

  /** The tables of host patterns for the two groups. */
  method MakePatterns(a: Group, b: Group)
    returns (patternGroups: seq<set<nat>>, lists: map<nat, seq<HostPattern>>, ghost components: seq<set<Group>>)
    requires ExampleGroups(a, b)
    ensures Structured(PairGraph(a, b), components, patternGroups, lists)
    ensures forall i :: 0 <= i < |components| ==> components[i] <= {a, b}
    ensures exists i :: 0 <= i < |components| && a in components[i]
  {
    hide Wired, SelfLimited, GraphOf, HasConflict, Components, ExactlyMaximal, Structured, PairGraph;
    ExampleWithoutConflict(a, b);
    var ok, containers;
    ghost var heads;
    ok, containers, components, heads := ProcessGroups({a, b});
    ComponentsCover({a, b}, components, heads);
    patternGroups, lists := BuildPatterns(containers, components, heads, {a, b});
    assert a in {a, b};
  }

  /** Everything a placement of these groups starts from. */
  lemma ExampleStart(a: Group, b: Group, hosts: seq<Host>, components: seq<set<Group>>,
                     pg: seq<set<nat>>, lists: map<nat, seq<HostPattern>>)
    requires ExampleGroups(a, b) && a.count == 4 && b.count == 3 && NoRepeats(hosts) && |hosts| == 3
    requires forall h :: h in hosts ==> h.Free() == Use(0, 0, 10) && h.cpuArch == Arch64 && h.bookings == []
    requires Structured(PairGraph(a, b), components, pg, lists)
    requires exists i :: 0 <= i < |components| && a in components[i]
    ensures var s, st := SetupOf({a, b}, lists, hosts), StartOf({a, b}, hosts);
      && InBalance(s, [], st) && HostsCompatible(s, pg, st) && NothingLost([], st, []) && Fresh(s, hosts, st)
      && Sizes(a, b, s.size, s.limit, s.least) && s.all == {a, b} && PatternsKnown(s, lists)
      && ClassesKnown(s, PairGraph(a, b))
      && (forall p :: p in s.patterns ==> p.Valid() && p.members == SetOf(p.groups) == {a, b} && p !in s.even)
      && (forall p :: p in s.patterns ==> Bookable(s, p))
      && (exists id :: id in lists && lists[id] != [])
      && (forall id :: id in lists && lists[id] != [] ==> lists[id][0] in s.patterns)
  {
    hide Wired, SelfLimited, GraphOf, Structured, SetupOf, StartOf, InBalance, EvenKnown, ClassesKnown, PatternsKnown,
      HostsCompatible, NothingLost, Sizes, AllPatterns, Consistent, PairGraph, Fresh;
    var s, st := SetupOf({a, b}, lists, hosts), StartOf({a, b}, hosts);
    SetupKnown(PairGraph(a, b), {a, b}, lists, hosts, components, pg);
    StartInBalance({a, b}, lists, hosts);
    StartFresh(a, b, hosts, lists);
    ExampleSetup(a, b, hosts, lists);
    SomePattern(a, PairGraph(a, b), s, components, pg, lists);
    forall p | p in s.patterns
      ensures p.Valid() && p.members == SetOf(p.groups) == {a, b} && p !in s.even && Bookable(s, p)
    {
      ExamplePattern(a, b, s, components, pg, lists, p);
      assert a in SetOf(p.groups);
    }
  }

  lemma AllUneven(a: Group, b: Group, s: Setup, bs: seq<Booking>, st: State)
    requires Lacks(s, {a, b}, bs, st) && forall p :: p in s.patterns ==> p.members == {a, b}
    ensures UnevenLack(s, bs, st)
  {
    hide Lacks;
  }

  method MakeHosts() returns (hosts: seq<Host>)
    ensures NoRepeats(hosts) && |hosts| == 3 && fresh(hosts)
    ensures forall h :: h in hosts ==> h.Free() == Use(0, 0, 10) && h.cpuArch == Arch64 && h.bookings == []
  {
    var h1 := new Host(10, Arch64, 0, 0);
    var h2 := new Host(10, Arch64, 0, 0);
    var h3 := new Host(10, Arch64, 0, 0);
    hosts := [h1, h2, h3];
  }

  /** The run: everything is placed, and some host has members of only one of the two. */
  method Run() returns (a: Group, b: Group, ghost s: Setup, ghost bs: seq<Booking>, ghost st: State)
    ensures a != b && s.all == {a, b} && Sizes(a, b, s.size, s.limit, s.least)
    ensures Correct(s, PairGraph(a, b), bs, st) && !SharedHosts(s, st, {a, b})
  {
    hide Wired, SelfLimited, GraphOf, Structured, SetupOf, StartOf, InBalance, ClassesKnown, PatternsKnown,
      HostsCompatible, NothingLost, Sizes, Correct, SharedHosts, Consistent, PairGraph, Fresh, Lacks, Left, NoRepeats;
    a, b := MakeGroups();
    var hosts := MakeHosts();
    var patternGroups, lists;
    ghost var components;
    patternGroups, lists, components := MakePatterns(a, b);
    s, st := SetupOf({a, b}, lists, hosts), StartOf({a, b}, hosts);
    ExampleStart(a, b, hosts, components, patternGroups, lists);
    var id :| id in lists && lists[id] != [];
    var pattern := lists[id][0];
    bs, st := BookAndPlace(a, b, hosts, pattern, s, st, patternGroups);
    Finished(a, b, s, components, patternGroups, lists, bs, st, pattern);
  }

  lemma Finished(a: Group, b: Group, s: Setup, components: seq<set<Group>>, pg: seq<set<nat>>,
                 lists: map<nat, seq<HostPattern>>, bs: seq<Booking>, st: State, p: HostPattern)
    requires Structured(PairGraph(a, b), components, pg, lists) && PatternsKnown(s, lists) && s.all == {a, b}
    requires InBalance(s, bs, st) && NothingLost(bs, st, []) && HostsCompatible(s, pg, st)
    requires s.Valid() && ClassesKnown(s, PairGraph(a, b)) && Lacks(s, {a, b}, bs, st)
    requires forall g :: g in s.all ==> Left(st, g) == 0
    requires p in s.patterns && forall p :: p in s.patterns ==> p.members == {a, b} && p !in s.even
    ensures Correct(s, PairGraph(a, b), bs, st) && !SharedHosts(s, st, {a, b})
  {
    hide Structured, ClassesKnown, PatternsKnown, HostsCompatible, NothingLost, SharedHosts, PairGraph, Lacks, Left,
      Balanced, UsedBy, Booked, Peaceful, WithinLimits, EnoughOn;
    AllUneven(a, b, s, bs, st);
    PlacementCorrect(s, PairGraph(a, b), components, pg, lists, bs, st);
    assert p.members == {a, b} && p !in s.even;
  }
}
