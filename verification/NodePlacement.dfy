/** The whole placement: from groups and their contracts to bookings on hosts. */
module NodePlacement {
  import opened MaximalSets
  import opened Groups
  import opened Bookings
  import opened Containers
  import opened Patterns
  import opened Ledger
  import opened Steps
  import opened Dealing
  import opened Placement
  import opened Spreading

  /** Two bookings on the same host: none of the groups of one is excluded from another
      group of the other; the same bookings may only repeat a pattern without limits. */
  ghost predicate Peaceful(graph: Graph<Group>, on: seq<Booking>) {
    forall x, y :: x in on && y in on ==> NoneExcluded(graph, x.pattern.members, y.pattern.members)
  }

  /** No group has more members on the host than its limit. */
  ghost predicate WithinLimits(s: Setup, on: seq<Booking>, order: Orders) {
    forall g :: g in s.limit && s.limit[g] != None ==> Booked(on, order, g) <= s.limit[g].value
  }

  /** A host with members of a group has at least the least number of them. */
  ghost predicate EnoughOn(s: Setup, on: seq<Booking>, order: Orders)
    requires s.Valid()
  {
    forall g :: g in s.all ==> Enough(Booked(on, order, g), s.least[g])
  }

  /** Where members of one of these groups are, there are members of all. */
  ghost predicate SharedHosts(s: Setup, st: State, members: set<Group>) {
    forall h, g, k :: h in s.hosts && h in st.hosting && g in members && k in members ==>
      (Booked(st.hosting[h], st.order, g) > 0 <==> Booked(st.hosting[h], st.order, k) > 0)
  }

  /** The patterns are bound classes, and the even ones those that can be dealt out evenly. */
  ghost predicate ClassesKnown(s: Setup, graph: Graph<Group>)
    requires s.Valid()
  {
    && (forall p :: p in s.patterns ==> p.Valid() && IsBoundClass(graph, p.members))
    && s.even <= s.patterns && graph.Symmetric()
    && (forall p :: p in s.patterns ==> (p in s.even <==> DealtEvenly(p.groups, s.size, s.limit, s.least)))
  }

  /** What a successful placement is: every member of every group is booked; a booking is on
      exactly one host, or holds nobody; each host has what its bookings use; excluded groups
      share no host; no host exceeds a group's limit, which is one for a group excluded from
      itself, or has fewer than its least number, which is two for a group bound to itself; and
      the groups of a bound class are on the same hosts if and only if they can be dealt out
      evenly. */
  ghost predicate Correct(s: Setup, graph: Graph<Group>, bs: seq<Booking>, st: State) {
    && Balanced(s, bs, st)
    && (forall g :: g in s.all ==> Booked(bs, st.order, g) == s.size[g])
    && (forall b :: b in bs && b !in st.hostOf ==> forall g :: g in st.order[b] ==> st.order[b][g] == 0)
    && (forall b, h :: b in bs && h in s.hosts && b in st.hosting[h] ==> b in st.hostOf && st.hostOf[b] == h)
    && (forall h :: h in s.hosts ==> UsedBy(st.hosting[h], st.order, h.cpuArch).Plus(st.free[h]) == s.capacity[h])
    && (forall h :: h in s.hosts ==> st.free[h].NonNegative())
    && (forall h :: h in s.hosts ==> Peaceful(graph, st.hosting[h]) && WithinLimits(s, st.hosting[h], st.order))
    && (forall h :: h in s.hosts ==> EnoughOn(s, st.hosting[h], st.order))
    && ClassesKnown(s, graph)
    && (forall p :: p in s.patterns ==> (SharedHosts(s, st, p.members) <==> p in s.even))
  }

  ghost predicate PatternsKnown(s: Setup, lists: map<nat, seq<HostPattern>>) {
    forall p :: p in s.patterns ==> p.groupedHostPatternID in lists && p in lists[p.groupedHostPatternID]
  }

  /** Two patterns may share a host exactly if they come from different components, or from the same
      container, and are not one pattern with a limit. */
  lemma CompatibleIff(s: Setup, graph: Graph<Group>, components: seq<set<Group>>, pg: seq<set<nat>>,
                      lists: map<nat, seq<HostPattern>>, x: HostPattern, y: HostPattern, i: nat, j: nat)
    requires Structured(graph, components, pg, lists) && i < |pg| && j < |pg|
    requires x.groupedHostPatternID in pg[i] && y.groupedHostPatternID in pg[j]
    ensures var same := x.groupedHostPatternID == y.groupedHostPatternID;
      Compatible(s, pg, x, y) <==>
      i != j || (same && (x != y || forall g :: g in x.members ==> g in s.limit && s.limit[g] == None))
  {
    hide ComponentOk, Apart;
  }

  /** Patterns that may share a host have no exclusion between them, and are disjoint or a
      repeated pattern without limits. */
  lemma CompatiblePatterns(s: Setup, graph: Graph<Group>, components: seq<set<Group>>, pg: seq<set<nat>>,
                           lists: map<nat, seq<HostPattern>>, x: HostPattern, y: HostPattern)
    requires Structured(graph, components, pg, lists) && PatternsKnown(s, lists) && x in s.patterns && y in s.patterns
    requires Compatible(s, pg, x, y)
    ensures NoneExcluded(graph, x.members, y.members) && NoneExcluded(graph, y.members, x.members)
    ensures x.members !! y.members || x == y
    ensures x.members !! y.members || forall g :: g in x.members ==> g in s.limit && s.limit[g] == None
  {
    var i :| 0 <= i < |pg| && x.groupedHostPatternID in pg[i];
    var j :| 0 <= j < |pg| && y.groupedHostPatternID in pg[j];
    assert ComponentOk(graph, components[i], pg[i], lists) && ComponentOk(graph, components[j], pg[j], lists);
    if x.groupedHostPatternID != y.groupedHostPatternID {
      assert i != j;
      assert Apart(graph, components[i], components[j]);
    }
  }

  lemma OwnPattern(s: Setup, graph: Graph<Group>, components: seq<set<Group>>, pg: seq<set<nat>>,
                   lists: map<nat, seq<HostPattern>>, x: HostPattern)
    requires Structured(graph, components, pg, lists) && PatternsKnown(s, lists) && x in s.patterns
    ensures NoneExcluded(graph, x.members, x.members)
  {
    var i :| 0 <= i < |pg| && x.groupedHostPatternID in pg[i];
    assert ComponentOk(graph, components[i], pg[i], lists);
  }

  /** One host: compatible bookings are at peace. */
  lemma HostPeaceful(s: Setup, graph: Graph<Group>, components: seq<set<Group>>, pg: seq<set<nat>>,
                     lists: map<nat, seq<HostPattern>>, on: seq<Booking>)
    requires Structured(graph, components, pg, lists) && PatternsKnown(s, lists)
    requires forall b :: b in on ==> b.pattern in s.patterns
    requires forall j :: 0 <= j < |on| ==> FitsBeside(s, pg, on[..j], on[j])
    ensures Peaceful(graph, on)
  {
    hide Structured, PatternsKnown, Compatible, NoneExcluded;
    forall i, j | 0 <= i < |on| && 0 <= j < |on|
      ensures NoneExcluded(graph, on[i].pattern.members, on[j].pattern.members)
    {
      assert on[i] in on && on[j] in on;
      if i == j {
        OwnPattern(s, graph, components, pg, lists, on[i].pattern);
      } else {
        var a, b := Min(i, j), Max(i, j);
        assert FitsBeside(s, pg, on[..b], on[b]) && on[..b][a] == on[a];
        CompatiblePatterns(s, graph, components, pg, lists, on[a].pattern, on[b].pattern);
      }
    }
  }

  /** A group with a limit is in at most one of a host's bookings. */
  lemma {:induction false} HostWithinLimit(s: Setup, graph: Graph<Group>, components: seq<set<Group>>,
                                           pg: seq<set<nat>>, lists: map<nat, seq<HostPattern>>, on: seq<Booking>,
                                           order: Orders, g: Group)
    requires Structured(graph, components, pg, lists) && PatternsKnown(s, lists) && s.Valid()
    requires forall b :: b in on ==> b.pattern in s.patterns && OrderOk(s, b, OrderIn(order, b))
    requires forall j :: 0 <= j < |on| ==> FitsBeside(s, pg, on[..j], on[j])
    requires g in s.limit && s.limit[g] != None
    ensures Booked(on, order, g) <= s.limit[g].value
  {
    hide Structured, PatternsKnown, Compatible, NoneExcluded;
    if on != [] {
      var n := |on| - 1;
      assert on[n] in on;
      if g in on[n].pattern.members {
        forall i | 0 <= i < n
          ensures g !in on[i].pattern.members
        {
          assert on[i] in on && FitsBeside(s, pg, on[..n], on[n]) && on[..n][i] == on[i];
          CompatiblePatterns(s, graph, components, pg, lists, on[i].pattern, on[n].pattern);
        }
        NoneBooked(s, on[..n], order, g);
      } else {
        forall j | 0 <= j < n
          ensures FitsBeside(s, pg, on[..n][..j], on[..n][j])
        {
          assert on[..n][..j] == on[..j];
        }
        HostWithinLimit(s, graph, components, pg, lists, on[..n], order, g);
      }
    }
  }

  lemma {:induction false} NoneBooked(s: Setup, on: seq<Booking>, order: Orders, g: Group)
    requires s.Valid() && forall b :: b in on ==> OrderOk(s, b, OrderIn(order, b))
    requires forall i :: 0 <= i < |on| ==> g !in on[i].pattern.members
    ensures Booked(on, order, g) == 0
  {
    if on != [] {
      assert on[|on| - 1] in on;
      NoneBooked(s, on[..|on| - 1], order, g);
    }
  }

  /** Bookings of other bound classes have none of this one's groups. */
  lemma ClassBeside(s: Setup, graph: Graph<Group>, p: HostPattern, q: HostPattern)
    requires s.Valid() && ClassesKnown(s, graph) && p in s.patterns && q in s.patterns
    ensures p.members == q.members || p.members !! q.members
    ensures p.members == q.members ==> (p in s.even <==> q in s.even)
  {
    hide DealtEvenly, IsBoundClass;
    ClassesApart(graph, p.members, q.members);
    if p.members == q.members {
      if p in s.even { SameClassSameDeal(p.groups, q.groups, s.size, s.limit, s.least); }
      if q in s.even { SameClassSameDeal(q.groups, p.groups, s.size, s.limit, s.least); }
    }
  }

  /** Groups that were dealt out evenly are on the same hosts. */
  lemma EvenShared(s: Setup, graph: Graph<Group>, bs: seq<Booking>, st: State, p: HostPattern)
    requires s.Valid() && Balanced(s, bs, st) && ClassesKnown(s, graph) && p in s.even && p.members <= s.all
    ensures SharedHosts(s, st, p.members)
  {
    hide Balanced, Booked, OrderOk, ClassesKnown;
    PatternOf(s, graph, p);
    forall h, g, k | h in s.hosts && h in st.hosting && g in p.members && k in p.members
      ensures Booked(st.hosting[h], st.order, g) > 0 <==> Booked(st.hosting[h], st.order, k) > 0
    {
      HostOrders(s, bs, st, h);
      forall b | b in st.hosting[h]
        ensures g in b.pattern.members <==> k in b.pattern.members
        ensures g in b.pattern.members ==> b.pattern in s.even
      {
        ClassBeside(s, graph, p, b.pattern);
      }
      BookedTogether(s, st.hosting[h], st.order, g, k);
    }
  }

  lemma PatternOf(s: Setup, graph: Graph<Group>, p: HostPattern)
    requires s.Valid() && ClassesKnown(s, graph) && p in s.even
    ensures p in s.patterns
  {
  }

  /** A booking of a class with a limit shares its host with no other booking of its groups. */
  lemma AloneOnHost(s: Setup, graph: Graph<Group>, components: seq<set<Group>>, pg: seq<set<nat>>,
                    lists: map<nat, seq<HostPattern>>, on: seq<Booking>, m: nat, g: Group)
    requires Structured(graph, components, pg, lists) && PatternsKnown(s, lists) && m < |on|
    requires forall b :: b in on ==> b.pattern in s.patterns
    requires forall j :: 0 <= j < |on| ==> FitsBeside(s, pg, on[..j], on[j])
    requires g in on[m].pattern.members && g in s.limit && s.limit[g] != None
    ensures forall i :: 0 <= i < |on| && i != m ==> on[i].pattern.members !! on[m].pattern.members
  {
    hide Structured, PatternsKnown, Compatible, NoneExcluded;
    forall i | 0 <= i < |on| && i != m
      ensures on[i].pattern.members !! on[m].pattern.members
    {
      assert on[i] in on && on[m] in on;
      var a, b := Min(i, m), Max(i, m);
      assert FitsBeside(s, pg, on[..b], on[b]) && on[..b][a] == on[a];
      CompatiblePatterns(s, graph, components, pg, lists, on[a].pattern, on[b].pattern);
    }
  }

  lemma {:induction false} BookedOnce(s: Setup, on: seq<Booking>, order: Orders, m: nat, g: Group)
    requires s.Valid() && m < |on| && forall b :: b in on ==> OrderOk(s, b, OrderIn(order, b))
    requires forall i :: 0 <= i < |on| && i != m ==> g !in on[i].pattern.members
    ensures Booked(on, order, g) == Amount(OrderIn(order, on[m]), g)
  {
    hide OrderIn;
    var n := |on| - 1;
    assert forall b :: b in on[..n] ==> b in on;
    assert on[n] in on;
    if m == n {
      NoneBooked(s, on[..n], order, g);
    } else {
      BookedOnce(s, on[..n], order, m, g);
    }
  }

  /** Groups that could not be dealt out evenly are not on the same hosts. */
  lemma UnevenApart(s: Setup, graph: Graph<Group>, components: seq<set<Group>>, pg: seq<set<nat>>,
                    lists: map<nat, seq<HostPattern>>, bs: seq<Booking>, st: State, members: set<Group>)
    requires Structured(graph, components, pg, lists) && PatternsKnown(s, lists)
    requires Balanced(s, bs, st) && NothingLost(bs, st, []) && HostsCompatible(s, pg, st)
    requires Lacks(s, members, bs, st)
    ensures !SharedHosts(s, st, members)
  {
    hide Structured, PatternsKnown, FitsBeside, Booked, UsedBy, CountsOk, OrderOk;
    var l :| l in members && l in s.limit && s.limit[l] != None;
    var b :| b in bs && Lacker(members, st, b);
    LackerOrder(s, bs, st, b);
    var g, k :| g in st.order[b] && k in st.order[b] && st.order[b][g] > 0 && st.order[b][k] == 0;
    assert b in st.hostOf;
    HostedIn(s, bs, st);
    var h := st.hostOf[b];
    var on := st.hosting[h];
    var m :| 0 <= m < |on| && on[m] == b;
    HostOrders(s, bs, st, h);
    AloneOnHost(s, graph, components, pg, lists, on, m, l);
    BookedOnce(s, on, st.order, m, g);
    BookedOnce(s, on, st.order, m, k);
  }

  lemma LackerOrder(s: Setup, bs: seq<Booking>, st: State, b: Booking)
    requires Balanced(s, bs, st) && b in bs && b in st.order && !Whole(st.order[b])
    ensures st.order[b].Keys == b.pattern.members
    ensures exists g, k :: g in st.order[b] && k in st.order[b] && st.order[b][g] > 0 && st.order[b][k] == 0
  {
    hide HostOk, Placed, CountsOk;
    assert OrderOk(s, b, st.order[b]);
  }

  /** The bound classes that could not be dealt out evenly. */
  ghost predicate UnevenLack(s: Setup, bs: seq<Booking>, st: State) {
    forall p :: p in s.patterns && p !in s.even ==> Lacks(s, p.members, bs, st)
  }

  /** A balanced state in which nothing is left over or waiting, and whose hosts are
      compatible, is a correct placement. */
  lemma PlacementCorrect(s: Setup, graph: Graph<Group>, components: seq<set<Group>>, pg: seq<set<nat>>,
                         lists: map<nat, seq<HostPattern>>, bs: seq<Booking>, st: State)
    requires Structured(graph, components, pg, lists) && PatternsKnown(s, lists)
    requires Balanced(s, bs, st) && NothingLost(bs, st, []) && HostsCompatible(s, pg, st) && ClassesKnown(s, graph)
    requires UnevenLack(s, bs, st) && forall p :: p in s.patterns ==> p.members <= s.all
    requires forall g :: g in s.all ==> Left(st, g) == 0
    ensures Correct(s, graph, bs, st)
  {
    hide Structured, PatternsKnown, Peaceful, WithinLimits, FitsBeside, UsedBy, Booked, EnoughOn, ClassesKnown,
      Lacks, SharedHosts;
    forall h | h in s.hosts
      ensures HostOk(s, h, st) && Peaceful(graph, st.hosting[h]) && WithinLimits(s, st.hosting[h], st.order)
      ensures EnoughOn(s, st.hosting[h], st.order)
    {
      HostCorrect(s, graph, components, pg, lists, bs, st, h);
    }
    forall p | p in s.patterns
      ensures SharedHosts(s, st, p.members) <==> p in s.even
    {
      if p in s.even {
        EvenShared(s, graph, bs, st, p);
      } else {
        UnevenApart(s, graph, components, pg, lists, bs, st, p.members);
      }
    }
  }

  lemma HostCorrect(s: Setup, graph: Graph<Group>, components: seq<set<Group>>, pg: seq<set<nat>>,
                    lists: map<nat, seq<HostPattern>>, bs: seq<Booking>, st: State, h: Host)
    requires Structured(graph, components, pg, lists) && PatternsKnown(s, lists)
    requires Balanced(s, bs, st) && HostsCompatible(s, pg, st) && h in s.hosts
    ensures HostOk(s, h, st) && Peaceful(graph, st.hosting[h]) && WithinLimits(s, st.hosting[h], st.order)
    ensures EnoughOn(s, st.hosting[h], st.order)
  {
    hide Structured, PatternsKnown, Peaceful, FitsBeside, UsedBy, Booked, OrderOk, CountsOk;
    assert HostOk(s, h, st);
    HostOrders(s, bs, st, h);
    HostPeaceful(s, graph, components, pg, lists, st.hosting[h]);
    forall g | g in s.limit && s.limit[g] != None
      ensures Booked(st.hosting[h], st.order, g) <= s.limit[g].value
    {
      HostWithinLimit(s, graph, components, pg, lists, st.hosting[h], st.order, g);
    }
    forall g | g in s.all
      ensures Enough(Booked(st.hosting[h], st.order, g), s.least[g])
    {
      BookedEnough(s, st.hosting[h], st.order, g);
    }
  }

  lemma HostOrders(s: Setup, bs: seq<Booking>, st: State, h: Host)
    requires Balanced(s, bs, st) && h in s.hosts
    ensures forall b :: b in st.hosting[h] ==> b.pattern in s.patterns && OrderOk(s, b, OrderIn(st.order, b))
  {
    hide UsedBy, CountsOk;
    assert HostOk(s, h, st);
    HostedIn(s, bs, st);
    forall b | b in st.hosting[h]
      ensures OrderOk(s, b, OrderIn(st.order, b))
    {
      assert b in st.order;
    }
  }

  // ------ running it

  ghost function AllPatterns(lists: map<nat, seq<HostPattern>>): set<HostPattern> {
    set id, p | id in lists && p in lists[id] :: p
  }

  /** The groups, patterns and hosts as a placement finds them. */
  ghost function SetupOf(groups: set<Group>, lists: map<nat, seq<HostPattern>>, hosts: seq<Host>): (s: Setup)
    reads groups, hosts
    ensures s.Valid()
  {
    var size, limit, least :=
      map g | g in groups :: g.count, map g | g in groups :: g.maxNum, map g | g in groups :: LeastOf(g);
    var patterns := AllPatterns(lists);
    var even := set p | p in patterns && DealtEvenly(p.groups, size, limit, least);
    Setup(groups, size, limit, least, patterns, even, SetOf(hosts), map h | h in hosts :: h.Free())
  }

  function LeastOf(g: Group): Positive
    reads g`minNum
  {
    Least(g)
  }

  ghost function StartOf(groups: set<Group>, hosts: seq<Host>): State
    reads groups, hosts
  {
    State(map[], map[], map h | h in hosts :: [], map h | h in hosts :: h.Free(), map g | g in groups :: g.count)
  }

  lemma StartInBalance(groups: set<Group>, lists: map<nat, seq<HostPattern>>, hosts: seq<Host>)
    requires forall g :: g in groups ==> g.count >= 0
    requires forall h :: h in hosts ==> h.bookings == [] && h.Free().NonNegative()
    ensures InBalance(SetupOf(groups, lists, hosts), [], StartOf(groups, hosts))
    ensures forall pg :: HostsCompatible(SetupOf(groups, lists, hosts), pg, StartOf(groups, hosts))
    ensures NothingLost([], StartOf(groups, hosts), [])
    ensures var s, st := SetupOf(groups, lists, hosts), StartOf(groups, hosts);
      forall g :: g in s.all ==> g in s.size && Left(st, g) == s.size[g]
  {
    var s, st := SetupOf(groups, lists, hosts), StartOf(groups, hosts);
    forall h | h in s.hosts
      ensures HostOk(s, h, st)
    {
      assert UsedBy(st.hosting[h], st.order, h.cpuArch) == NOTHING;
    }
    assert Fits(s) && Agrees(s, st);
  }

  /** All patterns of one component, container by container. */
  method PatternsOf(ids: set<nat>, lists: map<nat, seq<HostPattern>>) returns (patterns: seq<HostPattern>)
    requires ids <= lists.Keys
    ensures forall p :: p in patterns <==> exists id :: id in ids && p in lists[id]
  {
    patterns := [];
    var rest := ids;
    while rest != {}
      invariant rest <= ids
      invariant forall p :: p in patterns <==> exists id :: id in ids - rest && p in lists[id]
    {
      var id :| id in rest;
      ghost var done := ids - rest;
      rest := rest - {id};
      assert ids - rest == done + {id};
      patterns := patterns + lists[id];
    }
    assert ids - rest == ids;
  }

  /** Bound classes are the same or disjoint. */
  lemma ClassesApart(graph: Graph<Group>, x: set<Group>, y: set<Group>)
    requires graph.Symmetric() && IsBoundClass(graph, x) && IsBoundClass(graph, y)
    ensures x == y || x !! y
  {
    if e :| e in x && e in y {
      assert e in x * y && e in y * x;
      var g :| g in x && graph.IsClass(x, g);
      var k :| k in y && graph.IsClass(y, k);
      ClassMeets(graph, x, g, y);
      ClassMeets(graph, y, k, x);
    }
  }

  /** The patterns of a component can be booked. */
  lemma ComponentBookable(s: Setup, graph: Graph<Group>, components: seq<set<Group>>, pg: seq<set<nat>>,
                          lists: map<nat, seq<HostPattern>>, i: nat, patterns: seq<HostPattern>)
    requires Structured(graph, components, pg, lists) && i < |components| && components[i] <= s.all
    requires s.patterns == AllPatterns(lists) && forall g :: g in s.all ==> Consistent(g)
    requires forall p :: p in patterns <==> exists id :: id in pg[i] && id in lists && p in lists[id]
    ensures AllBookable(s, patterns)
    ensures forall g :: g in components[i] ==> exists p :: p in patterns && g in p.members
    ensures forall p :: p in patterns ==> p.members <= components[i]
  {
    hide NoneExcluded, Consistent, IsBoundClass;
    assert ComponentOk(graph, components[i], pg[i], lists);
    forall p, q | p in patterns && q in patterns
      ensures p.members == q.members || p.members !! q.members
    {
      ClassesApart(graph, p.members, q.members);
    }
    forall g | g in components[i]
      ensures exists p :: p in patterns && g in p.members
    {
      var id :| id in pg[i] && id in lists && Covers(lists[id], g);
      var p :| p in lists[id] && g in p.members;
      assert p in patterns;
    }
  }

  /** The components not in todo are booked, the others untouched. */
  ghost predicate BookedComponents(s: Setup, components: seq<set<Group>>, todo: set<nat>, st: State) {
    && (forall i, g :: 0 <= i < |components| && i !in todo && g in components[i] ==> Left(st, g) == 0)
    && (forall i, g :: 0 <= i < |components| && i in todo && g in components[i] ==>
         g in s.size && Left(st, g) == s.size[g])
  }

  /** Only members of this component were booked. */
  ghost predicate OthersSame(s: Setup, component: set<Group>, st: State, st': State) {
    forall g :: g in s.all && g !in component ==> Left(st', g) == Left(st, g)
  }

  lemma OneComponentMore(s: Setup, components: seq<set<Group>>, todo: set<nat>, i: nat, st: State, st': State)
    requires BookedComponents(s, components, todo, st) && i < |components| && OthersSame(s, components[i], st, st')
    requires forall j :: 0 <= j < |components| ==> components[j] <= s.all && (j != i ==> components[j] !! components[i])
    requires forall g :: g in components[i] ==> Left(st', g) == 0
    ensures BookedComponents(s, components, todo - {i}, st')
  {
    hide Left;
    forall j, g | 0 <= j < |components| && j != i && g in components[j]
      ensures g in s.all && g !in components[i]
    {
      assert components[j] <= s.all && components[j] !! components[i];
    }
  }

  lemma ComponentsDisjoint(graph: Graph<Group>, components: seq<set<Group>>, pg: seq<set<nat>>,
                           lists: map<nat, seq<HostPattern>>, i: nat)
    requires Structured(graph, components, pg, lists) && i < |components|
    ensures forall j :: 0 <= j < |components| && j != i ==> components[j] !! components[i]
  {
    hide NoneExcluded, ComponentOk;
    forall j | 0 <= j < |components| && j != i
      ensures components[j] !! components[i]
    {
      assert Apart(graph, components[j], components[i]);
    }
  }

  lemma SetupKnown(graph: Graph<Group>, groups: set<Group>, lists: map<nat, seq<HostPattern>>, hosts: seq<Host>,
                   components: seq<set<Group>>, pg: seq<set<nat>>)
    requires Structured(graph, components, pg, lists)
    ensures var s := SetupOf(groups, lists, hosts);
      s.all == groups && s.hosts == SetOf(hosts) && s.patterns == AllPatterns(lists) && PatternsKnown(s, lists)
    ensures |pg| == |components| && forall i :: 0 <= i < |pg| ==> pg[i] <= lists.Keys
    ensures var s := SetupOf(groups, lists, hosts); s.Valid() && EvenKnown(s) && ClassesKnown(s, graph)
  {
    hide NoneExcluded, IsBoundClass, DealtEvenly;
    var s := SetupOf(groups, lists, hosts);
    forall p | p in s.patterns
      ensures p.groupedHostPatternID in lists && p in lists[p.groupedHostPatternID]
    {
      var id :| id in lists && p in lists[id];
      var i :| 0 <= i < |pg| && id in pg[i];
      assert ComponentOk(graph, components[i], pg[i], lists);
    }
    forall i | 0 <= i < |pg|
      ensures pg[i] <= lists.Keys
    {
      assert ComponentOk(graph, components[i], pg[i], lists);
    }
  }

  /** Books and places all components, in an order left open. */
  method PlaceComponents(ghost s: Setup, hosts: seq<Host>, patternGroups: seq<set<nat>>,
                         lists: map<nat, seq<HostPattern>>, useMany: bool, resetOnFailure: bool,
                         ghost graph: Graph<Group>, ghost components: seq<set<Group>>, ghost st: State)
    returns (ok: bool, noHost: bool, ghost bs': seq<Booking>, ghost st': State, ghost f: Option<Failure>)
    requires Structured(graph, components, patternGroups, lists) && s.patterns == AllPatterns(lists) && EvenKnown(s)
    requires |patternGroups| == |components|
    requires forall i :: 0 <= i < |components| ==> components[i] <= s.all && patternGroups[i] <= lists.Keys
    requires InBalance(s, [], st) && HostsCompatible(s, patternGroups, st) && NothingLost([], st, [])
    requires SetOf(hosts) == s.hosts
    requires forall g :: g in s.all ==> Consistent(g) && g in s.size && Left(st, g) == s.size[g]
    modifies s.all`count, s.hosts
    ensures InBalance(s, bs', st') && forall b :: b in bs' ==> fresh(b)
    ensures ok ==>
      HostsCompatible(s, patternGroups, st') && NothingLost(bs', st', []) && BookedComponents(s, components, {}, st')
    ensures ok ==> AllClassesDone(s, bs', st')
    ensures !ok ==> Fails(s, hosts, patternGroups, useMany, noHost, f)
    ensures !ok && noHost && resetOnFailure ==> AllReset(s, st')
  {
    hide InBalance, HostsCompatible, NothingLost, Structured, AllPatterns, AllBookable, BookedComponents, Consistent,
      Left, EvenKnown, AllReset, ListsDone, AllClassesDone, LackersKept, Fails;
    bs', st', ok, noHost, f := [], st, true, false, None;
    var todo := Indices(|patternGroups|);
    NoneYet(s, components, todo, st);
    while todo != {}
      invariant InBalance(s, bs', st') && HostsCompatible(s, patternGroups, st') && NothingLost(bs', st', []) && ok
      invariant forall b :: b in bs' ==> fresh(b)
      invariant BookedComponents(s, components, todo, st') && forall i :: i in todo ==> 0 <= i < |components|
      invariant forall i :: 0 <= i < |components| && i !in todo ==> ListsDone(s, patternGroups[i], lists, bs', st')
    {
      var i :| i in todo;
      ghost var bs1, st1 := bs', st';
      ComponentUntouched(s, components, todo, i, st');
      ok, noHost, bs', st', f :=
        PlaceNumbered(s, hosts, patternGroups, lists, useMany, resetOnFailure, i, graph, components, bs', st');
      if !ok {
        return;
      }
      ComponentsDisjoint(graph, components, patternGroups, lists, i);
      OneComponentMore(s, components, todo, i, st1, st');
      OneMoreDone(s, patternGroups, lists, todo, i, bs1, st1, bs', st');
      todo := todo - {i};
    }
    AllListsDone(s, graph, components, patternGroups, lists, bs', st');
  }

  /** The bound classes of these lists are done. */
  ghost predicate ListsDone(s: Setup, ids: set<nat>, lists: map<nat, seq<HostPattern>>, bs: seq<Booking>, st: State) {
    forall id, p :: id in ids && id in lists && p in lists[id] ==> ClassDone(s, p, bs, st)
  }

  ghost predicate AllClassesDone(s: Setup, bs: seq<Booking>, st: State) {
    forall p :: p in s.patterns ==> ClassDone(s, p, bs, st)
  }

  lemma OneMoreDone(s: Setup, pg: seq<set<nat>>, lists: map<nat, seq<HostPattern>>, todo: set<nat>, i: nat,
                    bs: seq<Booking>, st: State, bs': seq<Booking>, st': State)
    requires forall j :: 0 <= j < |pg| && j !in todo ==> ListsDone(s, pg[j], lists, bs, st)
    requires i < |pg| && ListsDone(s, pg[i], lists, bs', st') && bs <= bs' && LackersKept(st, st')
    ensures forall j :: 0 <= j < |pg| && j !in todo - {i} ==> ListsDone(s, pg[j], lists, bs', st')
  {
    hide ClassDone, LackersKept;
    forall j, id, p | 0 <= j < |pg| && j !in todo && id in pg[j] && id in lists && p in lists[id]
      ensures ClassDone(s, p, bs', st')
    {
      assert ListsDone(s, pg[j], lists, bs, st);
      StillDone(s, p, bs, st, bs', st');
    }
  }

  lemma AllListsDone(s: Setup, graph: Graph<Group>, components: seq<set<Group>>, pg: seq<set<nat>>,
                     lists: map<nat, seq<HostPattern>>, bs: seq<Booking>, st: State)
    requires Structured(graph, components, pg, lists) && s.patterns == AllPatterns(lists)
    requires forall i :: 0 <= i < |pg| ==> ListsDone(s, pg[i], lists, bs, st)
    ensures AllClassesDone(s, bs, st)
  {
    hide ClassDone, NoneExcluded, ComponentOk;
    forall p | p in s.patterns
      ensures ClassDone(s, p, bs, st)
    {
      var id :| id in lists && p in lists[id];
      var i :| 0 <= i < |pg| && id in pg[i];
      assert ListsDone(s, pg[i], lists, bs, st);
    }
  }

  lemma StillAllDone(s: Setup, bs: seq<Booking>, st: State, bs': seq<Booking>, st': State)
    requires AllClassesDone(s, bs, st) && bs <= bs' && LackersKept(st, st')
    ensures AllClassesDone(s, bs', st')
  {
    hide ClassDone, LackersKept;
    forall p | p in s.patterns
      ensures ClassDone(s, p, bs', st')
    {
      StillDone(s, p, bs, st, bs', st');
    }
  }

  lemma ClassesDone(s: Setup, bs: seq<Booking>, st: State)
    requires AllClassesDone(s, bs, st)
    ensures UnevenLack(s, bs, st) && AllDealable(s)
  {
    hide Lacks, Dealable;
  }

  /** The members of every bound class can be dealt out. */
  ghost predicate AllDealable(s: Setup) {
    forall p :: p in s.patterns ==> Dealable(p.groups, s.size, s.limit, s.least)
  }

  lemma ComponentUntouched(s: Setup, components: seq<set<Group>>, todo: set<nat>, i: nat, st: State)
    requires BookedComponents(s, components, todo, st) && i in todo && i < |components|
    ensures forall g :: g in components[i] ==> g in s.size && Left(st, g) == s.size[g]
  {
    hide Left;
  }

  function Indices(n: nat): (r: set<nat>)
    ensures forall i: nat :: i in r <==> i < n
  {
    if n == 0 then {} else Indices(n - 1) + {n - 1}
  }

  /** Books and places the i-th component. */
  method PlaceNumbered(ghost s: Setup, hosts: seq<Host>, patternGroups: seq<set<nat>>,
                       lists: map<nat, seq<HostPattern>>, useMany: bool, resetOnFailure: bool, i: nat,
                       ghost graph: Graph<Group>, ghost components: seq<set<Group>>,
                       ghost bs: seq<Booking>, ghost st: State)
    returns (ok: bool, noHost: bool, ghost bs': seq<Booking>, ghost st': State, ghost f: Option<Failure>)
    requires Structured(graph, components, patternGroups, lists) && s.patterns == AllPatterns(lists) && EvenKnown(s)
    requires i < |patternGroups| == |components| && components[i] <= s.all && patternGroups[i] <= lists.Keys
    requires InBalance(s, bs, st) && HostsCompatible(s, patternGroups, st) && NothingLost(bs, st, [])
    requires SetOf(hosts) == s.hosts
    requires forall g :: g in s.all ==> Consistent(g)
    requires forall g :: g in components[i] ==> g in s.size && Left(st, g) == s.size[g]
    modifies SetOf(bs)`order, SetOf(bs)`host, s.all`count, s.hosts
    ensures InBalance(s, bs', st') && bs <= bs' && (forall b :: b in bs' ==> b in bs || fresh(b))
    ensures ok ==>
      HostsCompatible(s, patternGroups, st') && NothingLost(bs', st', []) && OthersSame(s, components[i], st, st')
    ensures ok ==> LackersKept(st, st') && ListsDone(s, patternGroups[i], lists, bs', st')
    ensures !ok ==> Fails(s, hosts, patternGroups, useMany, noHost, f)
    ensures ok ==> forall g :: g in components[i] ==> Left(st', g) == 0
    ensures !ok && noHost && resetOnFailure ==> AllReset(s, st')
  {
    hide InBalance, HostsCompatible, NothingLost, Structured, AllPatterns, AllBookable, Consistent, Left, EvenKnown,
      AllReset, OthersKept, Unbooked, ClassDone, LackersKept, Fails;
    var patterns := PatternsOf(patternGroups[i], lists);
    ComponentBookable(s, graph, components, patternGroups, lists, i, patterns);
    PatternsUnbooked(s, patterns, components[i], st);
    ok, noHost, bs', st', f :=
      PlaceComponent(s, hosts, patternGroups, useMany, resetOnFailure, patterns, bs, st);
    if ok {
      OthersAreSame(s, patterns, components[i], st, st');
    }
  }

  lemma PatternsUnbooked(s: Setup, patterns: seq<HostPattern>, component: set<Group>, st: State)
    requires forall p :: p in patterns ==> p.members <= component
    requires forall g :: g in component ==> g in s.size && Left(st, g) == s.size[g]
    ensures Unbooked(s, patterns, st)
  {
    hide Left;
  }

  lemma OthersAreSame(s: Setup, patterns: seq<HostPattern>, component: set<Group>, st: State, st': State)
    requires (forall p :: p in patterns ==> p.members <= component) && OthersKept(s, patterns, st, st')
    ensures OthersSame(s, component, st, st')
  {
    hide Left;
  }

  lemma NoneYet(s: Setup, components: seq<set<Group>>, todo: set<nat>, st: State)
    requires forall i :: 0 <= i < |components| ==> i in todo && components[i] <= s.all
    requires forall g :: g in s.all ==> g in s.size && Left(st, g) == s.size[g]
    ensures BookedComponents(s, components, todo, st)
  {
    hide Left;
  }

  /** The bookings on all hosts, and the hosts that have none. */
  method FinalBookings(ghost s: Setup, hosts: seq<Host>, ghost bs: seq<Booking>, ghost st: State)
    returns (finalBookings: seq<Booking>, unusedHosts: set<Host>)
    requires InBalance(s, bs, st) && SetOf(hosts) == s.hosts
    ensures AllPlaced(finalBookings, bs, st) && unusedHosts == EmptyHosts(s, st) && Unused(unusedHosts, st)
    ensures forall b :: b in st.hostOf ==> b in finalBookings
  {
    hide InBalance, Unused, AllPlaced, EmptyHosts;
    finalBookings, unusedHosts := [], {};
    NoneFound(bs, st);
    var i := 0;
    while i < |hosts|
      invariant 0 <= i <= |hosts| && AllPlaced(finalBookings, bs, st) && FoundOn(hosts[..i], st, finalBookings)
      invariant unusedHosts == EmptyAmong(hosts[..i], st)
    {
      assert hosts[i] in s.hosts;
      assert hosts[..i + 1] == hosts[..i] + [hosts[i]];
      MoreFound(s, bs, st, hosts[..i], hosts[i], finalBookings);
      finalBookings := finalBookings + hosts[i].bookings;
      if hosts[i].bookings == [] {
        unusedHosts := unusedHosts + {hosts[i]};
      }
      i := i + 1;
    }
    assert hosts[..i] == hosts;
    AllFound(s, bs, st, hosts, finalBookings);
  }

  /** The list has all bookings that are on these hosts. */
  ghost predicate FoundOn(hosts: seq<Host>, st: State, found: seq<Booking>) {
    forall b :: b in st.hostOf && st.hostOf[b] in hosts ==> b in found
  }

  ghost function EmptyAmong(hosts: seq<Host>, st: State): set<Host> {
    set h | h in hosts && h in st.hosting && st.hosting[h] == []
  }

  lemma NoneFound(bs: seq<Booking>, st: State)
    ensures AllPlaced([], bs, st) && FoundOn([], st, []) && EmptyAmong([], st) == {}
  {
  }

  lemma MoreFound(s: Setup, bs: seq<Booking>, st: State, done: seq<Host>, h: Host, found: seq<Booking>)
    requires InBalance(s, bs, st) && h in s.hosts && AllPlaced(found, bs, st) && FoundOn(done, st, found)
    ensures AllPlaced(found + h.bookings, bs, st) && FoundOn(done + [h], st, found + h.bookings)
    ensures EmptyAmong(done + [h], st) == EmptyAmong(done, st) + if h.bookings == [] then {h} else {}
  {
    hide UsedBy, Booked;
    assert HostOk(s, h, st);
    forall b | b in h.bookings
      ensures b in bs && b in st.hostOf
    {
      assert b in st.hosting[h];
      assert Placed(s, bs, st, b);
    }
    forall b | b in st.hostOf && st.hostOf[b] in done + [h]
      ensures b in found + h.bookings
    {
      assert Placed(s, bs, st, b);
    }
  }

  lemma AllFound(s: Setup, bs: seq<Booking>, st: State, hosts: seq<Host>, found: seq<Booking>)
    requires InBalance(s, bs, st) && SetOf(hosts) == s.hosts && FoundOn(hosts, st, found)
    ensures EmptyAmong(hosts, st) == EmptyHosts(s, st) && Unused(EmptyHosts(s, st), st)
    ensures forall b :: b in st.hostOf ==> b in found
  {
    hide HostOk, OrderOk, CountsOk;
    HostedIn(s, bs, st);
    forall h ensures h in hosts <==> h in s.hosts {
      assert h in SetOf(hosts) <==> h in s.hosts;
    }
  }

  /** The placement of patterns on hosts.  If a booking fits on no host, and it is to, everything
      is put back. */
  method Place(groups: set<Group>, hosts: seq<Host>, patternGroups: seq<set<nat>>, lists: map<nat, seq<HostPattern>>,
               useMany: bool, resetOnFailure: bool, ghost graph: Graph<Group>, ghost components: seq<set<Group>>)
    returns (ok: bool, noHost: bool, ghost s: Setup, ghost bs: seq<Booking>, ghost st: State, ghost f: Option<Failure>)
    requires Structured(graph, components, patternGroups, lists)
    requires forall i :: 0 <= i < |components| ==> components[i] <= groups
    requires forall g :: g in groups ==> exists i :: 0 <= i < |components| && g in components[i]
    requires forall g :: g in groups ==> g.count >= 0 && Consistent(g)
    requires forall h :: h in hosts ==> h.bookings == [] && h.Free().NonNegative()
    modifies groups`count, hosts
    ensures s == old(SetupOf(groups, lists, hosts)) && InBalance(s, bs, st)
    ensures ok ==> Correct(s, graph, bs, st) && forall g :: g in groups ==> g.count == 0
    ensures !ok && noHost && resetOnFailure ==> AsBefore(groups, hosts, s)
    ensures !ok ==> Fails(s, hosts, patternGroups, useMany, noHost, f)
    ensures ok ==> AllDealable(s) && (useMany ==> SpreadOut(s, st))
  {
    hide InBalance, HostsCompatible, NothingLost, Structured, SetupOf, StartOf, Correct, BookedComponents, Consistent,
      Unused, AllPlaced, SpreadOut, Setup.Valid, EvenKnown, ClassesKnown, Left, AllReset, AsBefore, UnevenLack,
      LackersKept, AllClassesDone, AllDealable, Fails;
    s := SetupOf(groups, lists, hosts);
    SetupKnown(graph, groups, lists, hosts, components, patternGroups);
    StartInBalance(groups, lists, hosts);
    ok, noHost, bs, st, f :=
      PlaceComponents(s, hosts, patternGroups, lists, useMany, resetOnFailure, graph, components,
        StartOf(groups, hosts));
    if ok && useMany {
      ghost var bs1, st1 := bs, st;
      bs, st := UseMoreHosts(s, hosts, patternGroups, bs, st);
      SameLeft(s, components, st1, st);
      StillAllDone(s, bs1, st1, bs, st);
    }
    if ok {
      AllBooked(s, components, groups, bs, st);
      ClassesDone(s, bs, st);
      PatternsWithin(s, graph, components, patternGroups, lists);
      PlacementCorrect(s, graph, components, patternGroups, lists, bs, st);
    } else if noHost && resetOnFailure {
      ResetOnHeap(s, groups, hosts, bs, st);
    }
  }

  lemma PatternsWithin(s: Setup, graph: Graph<Group>, components: seq<set<Group>>,
                       pg: seq<set<nat>>, lists: map<nat, seq<HostPattern>>)
    requires Structured(graph, components, pg, lists) && s.patterns == AllPatterns(lists)
    requires forall i :: 0 <= i < |components| ==> components[i] <= s.all
    ensures forall p :: p in s.patterns ==> p.members <= s.all
  {
    hide NoneExcluded, IsBoundClass;
    forall p | p in s.patterns
      ensures p.members <= s.all
    {
      var id :| id in lists && p in lists[id];
      var i :| 0 <= i < |pg| && id in pg[i];
      assert ComponentOk(graph, components[i], pg[i], lists);
    }
  }

  /** The remaining counts, and what is free on the hosts, are those of the setup, and no host
      has bookings. */
  ghost predicate AsBefore(groups: set<Group>, hosts: seq<Host>, s: Setup)
    reads groups, hosts
  {
    && (forall g :: g in groups ==> g in s.size && g.count == s.size[g])
    && (forall h :: h in hosts ==> h in s.capacity && h.Free() == s.capacity[h] && h.bookings == [])
  }

  lemma ResetOnHeap(s: Setup, groups: set<Group>, hosts: seq<Host>, bs: seq<Booking>, st: State)
    requires InBalance(s, bs, st) && AllReset(s, st) && s.all == groups && s.hosts == SetOf(hosts)
    ensures AsBefore(groups, hosts, s)
  {
    hide HostOk, OrderOk, CountsOk;
    forall h | h in hosts
      ensures h.Free() == s.capacity[h] && h.bookings == []
    {
      assert h in s.hosts;
    }
  }

  method UseMoreHosts(ghost s: Setup, hosts: seq<Host>, ghost patternGroups: seq<set<nat>>,
                      ghost bs: seq<Booking>, ghost st: State)
    returns (ghost bs': seq<Booking>, ghost st': State)
    requires InBalance(s, bs, st) && HostsCompatible(s, patternGroups, st) && NothingLost(bs, st, [])
    requires SetOf(hosts) == s.hosts
    modifies SetOf(bs)`order, s.all`count, s.hosts
    ensures InBalance(s, bs', st') && NothingLost(bs', st', []) && HostsCompatible(s, patternGroups, st')
    ensures st'.count == st.count && bs <= bs' && LackersKept(st, st') && SpreadOut(s, st')
  {
    hide InBalance, HostsCompatible, NothingLost, Unused, AllPlaced, LackersKept, SpreadOut, EmptyHosts;
    var finalBookings, unusedHosts := FinalBookings(s, hosts, bs, st);
    BookingsOf(finalBookings, bs, st);
    bs', st' := Redistribute(s, unusedHosts, finalBookings, bs, st, patternGroups);
  }

  lemma BookingsOf(list: seq<Booking>, bs: seq<Booking>, st: State)
    requires AllPlaced(list, bs, st)
    ensures SetOf(list) <= SetOf(bs)
  {
  }

  lemma SameLeft(s: Setup, components: seq<set<Group>>, st: State, st': State)
    requires BookedComponents(s, components, {}, st) && st'.count == st.count
    ensures BookedComponents(s, components, {}, st')
  {
    forall i, g | 0 <= i < |components| && g in components[i]
      ensures Left(st', g) == 0
    {
      assert Left(st, g) == 0;
    }
  }

  lemma AllBooked(s: Setup, components: seq<set<Group>>, groups: set<Group>, bs: seq<Booking>, st: State)
    requires InBalance(s, bs, st) && s.all == groups && BookedComponents(s, components, {}, st)
    requires forall g :: g in groups ==> exists i :: 0 <= i < |components| && g in components[i]
    ensures Balanced(s, bs, st) && forall g :: g in s.all ==> Left(st, g) == 0 && g.count == 0
  {
    hide UsedBy, Booked, Balanced;
    MembersInBalance(s, bs, st, groups);
    forall g | g in s.all
      ensures Left(st, g) == 0 && g.count == 0
    {
      var i :| 0 <= i < |components| && g in components[i];
    }
  }

  /** The components of the groups, and the host patterns made for them. */
  datatype Tables = Tables(components: seq<set<Group>>, patternGroups: seq<set<nat>>,
                           lists: map<nat, seq<HostPattern>>)

  /** The setup has the patterns of these tables, and they are made from the contracts. */
  ghost predicate FromContracts(s: Setup, graph: Graph<Group>, t: Tables) {
    && s.Valid() && ClassesKnown(s, graph) && s.patterns == AllPatterns(t.lists)
    && Structured(graph, t.components, t.patternGroups, t.lists)
  }

  /** From contracts to bookings.  It fails when a group is bound to one it is excluded from, or when
      the members of some bound class cannot be booked, or when the run of the strategy comes to a
      booking that fits on no host and cannot be halved; if it succeeds, the placement is correct
      for these contracts. */
  method PlaceGroups(groups: set<Group>, hosts: seq<Host>, useMany: bool, resetOnFailure: bool)
    returns (ok: bool, noHost: bool, ghost s: Setup, ghost bs: seq<Booking>, ghost st: State,
             ghost t: Tables, ghost f: Option<Failure>)
    requires Wired(groups) && SelfLimited(groups)
    requires forall g :: g in groups ==> g.count >= 0 && Consistent(g)
    requires forall h :: h in hosts ==> h.bookings == [] && h.Free().NonNegative()
    modifies groups`count, hosts
    ensures HasConflict(old(GraphOf(groups)), groups) ==> !ok
    ensures s.all == groups && s.hosts == SetOf(hosts) && InBalance(s, bs, st)
    ensures forall g :: g in groups ==> s.size[g] == old(g.count)
    ensures forall h :: h in hosts ==> s.capacity[h] == old(h.Free())
    ensures !HasConflict(old(GraphOf(groups)), groups) ==> FromContracts(s, old(GraphOf(groups)), t)
    ensures !ok ==>
      HasConflict(old(GraphOf(groups)), groups) || Fails(s, hosts, t.patternGroups, useMany, noHost, f)
    ensures ok ==> AllDealable(s) && (useMany ==> SpreadOut(s, st)) && forall g :: g in groups ==> g.count == 0
    ensures ok ==> Correct(s, old(GraphOf(groups)), bs, st)
    ensures ok ==> SelfContractsKept(s, old(GraphOf(groups)), st)
    ensures !ok && noHost && resetOnFailure ==> forall g :: g in groups ==> g.count == old(g.count)
    ensures !ok && noHost && resetOnFailure ==> forall h :: h in hosts ==> h.Free() == old(h.Free()) && h.bookings == []
  {
    hide Wired, GraphOf, ContractGraph, HasConflict, Correct, InBalance, Structured, ExactlyMaximal, Components,
      Consistent, SelfLimited, SelfContractsKept, FromContracts, Fails, AllDealable, SpreadOut;
    var containers;
    ghost var components, heads;
    ghost var graph := GraphOf(groups);
    s, bs, st, noHost := SetupOf(groups, map[], hosts), [], StartOf(groups, hosts), false;
    t, f := Tables([], [], map[]), None;
    StartInBalance(groups, map[], hosts);
    ok, containers, components, heads := ProcessGroups(groups);
    if ok {
      ok, noHost, s, bs, st, t, f :=
        PlaceContainers(groups, hosts, containers, useMany, resetOnFailure, components, heads);
    }
  }

  /** Builds the patterns and places them. */
  method PlaceContainers(groups: set<Group>, hosts: seq<Host>, containers: seq<set<Container>>, useMany: bool,
                         resetOnFailure: bool, ghost components: seq<set<Group>>, ghost heads: seq<Group>)
    returns (ok: bool, noHost: bool, ghost s: Setup, ghost bs: seq<Booking>, ghost st: State,
             ghost t: Tables, ghost f: Option<Failure>)
    requires Wired(groups) && SelfLimited(groups) && Components(groups, components, heads, groups)
    requires |containers| == |components|
    requires forall i :: 0 <= i < |containers| ==>
      ExactlyMaximal(GraphOf(groups), Contents(containers[i]), components[i])
    requires forall g :: g in groups ==> g.count >= 0 && Consistent(g)
    requires forall h :: h in hosts ==> h.bookings == [] && h.Free().NonNegative()
    modifies groups`count, hosts
    ensures InBalance(s, bs, st) && s.all == groups && s.hosts == SetOf(hosts)
    ensures s.size == old(map g | g in groups :: g.count) && s.capacity == old(map h | h in hosts :: h.Free())
    ensures FromContracts(s, old(GraphOf(groups)), t) && (!ok ==> Fails(s, hosts, t.patternGroups, useMany, noHost, f))
    ensures ok ==> AllDealable(s) && (useMany ==> SpreadOut(s, st)) && forall g :: g in groups ==> g.count == 0
    ensures ok ==> Correct(s, old(GraphOf(groups)), bs, st) && SelfContractsKept(s, old(GraphOf(groups)), st)
    ensures !ok && noHost && resetOnFailure ==> AsBefore(groups, hosts, s)
  {
    hide Wired, GraphOf, ContractGraph, Correct, InBalance, Structured, ExactlyMaximal, Components, Consistent,
      SelfLimited, SelfContractsKept, AsBefore, SelfLimitsKnown, DealtEvenly, ClassesKnown, EvenKnown, PatternsKnown,
      Fails, AllDealable, SpreadOut;
    ghost var graph := GraphOf(groups);
    var patternGroups, lists := BuildPatterns(containers, components, heads, groups);
    ComponentsCover(groups, components, heads);
    LimitsOfSetup(groups, lists, hosts, graph);
    SetupKnown(graph, groups, lists, hosts, components, patternGroups);
    t := Tables(components, patternGroups, lists);
    ok, noHost, s, bs, st, f :=
      Place(groups, hosts, patternGroups, lists, useMany, resetOnFailure, graph, components);
    if ok {
      SelfContracts(s, graph, bs, st);
    }
  }

  /** At most one member per host of a group that excludes itself, and never a single one of a
      group bound to itself. */
  ghost predicate SelfContractsKept(s: Setup, graph: Graph<Group>, st: State) {
    forall h, g :: h in s.hosts && h in st.hosting && g in s.all ==>
      && ((g, g) in graph.excluded ==> Booked(st.hosting[h], st.order, g) <= 1)
      && ((g, g) in graph.bound ==> Booked(st.hosting[h], st.order, g) != 1)
  }

  ghost predicate SelfLimitsKnown(s: Setup, graph: Graph<Group>)
    requires s.Valid()
  {
    forall g :: g in s.all ==>
      ((g, g) in graph.excluded ==> s.limit[g] == Some(1)) && ((g, g) in graph.bound ==> s.least[g] == 2)
  }

  lemma LimitsOfSetup(groups: set<Group>, lists: map<nat, seq<HostPattern>>, hosts: seq<Host>, graph: Graph<Group>)
    requires SelfLimited(groups) && graph == GraphOf(groups)
    ensures SelfLimitsKnown(SetupOf(groups, lists, hosts), graph)
  {
  }

  lemma SelfContracts(s: Setup, graph: Graph<Group>, bs: seq<Booking>, st: State)
    requires Correct(s, graph, bs, st) && SelfLimitsKnown(s, graph)
    ensures SelfContractsKept(s, graph, st)
  {
    hide Booked, Peaceful, SharedHosts, ClassesKnown, UsedBy, HostOk, Placed, OrdersOk, CountsOk;
    forall h, g | h in s.hosts && h in st.hosting && g in s.all
      ensures (g, g) in graph.excluded ==> Booked(st.hosting[h], st.order, g) <= 1
      ensures (g, g) in graph.bound ==> Booked(st.hosting[h], st.order, g) != 1
    {
      assert WithinLimits(s, st.hosting[h], st.order) && EnoughOn(s, st.hosting[h], st.order);
    }
  }

  lemma ComponentsCover(groups: set<Group>, components: seq<set<Group>>, heads: seq<Group>)
    requires Components(groups, components, heads, groups)
    ensures forall i :: 0 <= i < |components| ==> components[i] <= groups
    ensures forall g :: g in groups ==> exists i :: 0 <= i < |components| && g in components[i]
  {
    PartsKnown(ContractGraph(groups), components, heads, groups);
    forall g | g in groups
      ensures exists i :: 0 <= i < |components| && g in components[i]
    {
      var i := InUnion(components, g);
    }
  }
}
