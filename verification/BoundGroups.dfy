/** When bound groups really share their hosts: exactly if their members can be dealt out evenly,
    which is less often than they could. */
module BoundGroups {
  import opened Arith
  import opened MaximalSets
  import opened Groups
  import opened Bookings
  import opened Containers
  import opened Patterns
  import opened Ledger
  import opened Steps
  import opened Dealing
  import opened Placement
  import opened NodePlacement

  // ------ what the placement does

  lemma {:induction false} Holder(bs: seq<Booking>, o: Orders, g: Group) returns (i: nat)
    requires Booked(bs, o, g) > 0
    ensures i < |bs| && Amount(OrderIn(o, bs[i]), g) > 0
  {
    i := |bs| - 1;
    if Amount(OrderIn(o, bs[i]), g) <= 0 {
      i := Holder(bs[..i], o, g);
    }
  }

  /** A group with members is in some pattern. */
  lemma PatternWith(s: Setup, graph: Graph<Group>, bs: seq<Booking>, st: State, g: Group) returns (p: HostPattern)
    requires Correct(s, graph, bs, st) && g in s.all && s.size[g] > 0
    ensures p in s.patterns && g in p.members
  {
    hide UsedBy, HostOk, Placed, CountsOk, Peaceful, WithinLimits, EnoughOn, ClassesKnown, SharedHosts;
    var i := Holder(bs, st.order, g);
    assert bs[i] in bs && OrderOk(s, bs[i], st.order[bs[i]]);
    p := bs[i].pattern;
  }

  /** In a correct placement the groups l of a bound class are on the same hosts if and only if
      they can be dealt out evenly. */
  lemma BoundShareHosts(s: Setup, graph: Graph<Group>, bs: seq<Booking>, st: State, l: seq<Group>, g: Group)
    requires Correct(s, graph, bs, st) && graph.IsClass(SetOf(l), g) && g in s.all && s.size[g] > 0
    ensures SharedHosts(s, st, SetOf(l)) <==> DealtEvenly(l, s.size, s.limit, s.least)
  {
    hide DealtEvenly, UsedBy, Booked, HostOk, Placed, OrdersOk, CountsOk, Peaceful, WithinLimits, EnoughOn,
      SharedHosts, Graph.IsClass;
    var p := PatternWith(s, graph, bs, st, g);
    ClassOf(graph, SetOf(l), g, p.members);
    if p in s.even {
      SameClassSameDeal(p.groups, l, s.size, s.limit, s.least);
    }
    if DealtEvenly(l, s.size, s.limit, s.least) {
      SameClassSameDeal(l, p.groups, s.size, s.limit, s.least);
    }
  }

  lemma ClassOf(graph: Graph<Group>, l: set<Group>, g: Group, members: set<Group>)
    requires graph.Symmetric() && graph.IsClass(l, g) && IsBoundClass(graph, members) && g in members
    ensures members == l
  {
    assert IsBoundClass(graph, l);
    ClassesApart(graph, members, l);
  }

  // ------ what any placement could do

  /** All hosts' bookings in one list. */
  function OnHosts(hs: seq<Host>, hosting: map<Host, seq<Booking>>): seq<Booking> {
    if hs == [] then []
    else
      var h := hs[|hs| - 1];
      OnHosts(hs[..|hs| - 1], hosting) + if h in hosting then hosting[h] else []
  }

  lemma {:induction false} BookedJoin(bs: seq<Booking>, cs: seq<Booking>, o: Orders, g: Group)
    ensures Booked(bs + cs, o, g) == Booked(bs, o, g) + Booked(cs, o, g)
  {
    if cs == [] {
      assert bs + cs == bs;
    } else {
      var n := |cs| - 1;
      BookedJoin(bs, cs[..n], o, g);
      assert bs + cs == (bs + cs[..n]) + [cs[n]];
      BookedAppend(bs + cs[..n], o, cs[n], g);
    }
  }

  lemma BookedBeside(bs: seq<Booking>, o: Orders, g: Group, i: nat)
    requires i < |bs|
    ensures Booked(bs, o, g) == Booked(bs[..i] + bs[i + 1..], o, g) + Amount(OrderIn(o, bs[i]), g)
  {
    hide Booked, Amount, OrderIn;
    assert bs == (bs[..i] + [bs[i]]) + bs[i + 1..];
    BookedJoin(bs[..i] + [bs[i]], bs[i + 1..], o, g);
    BookedAppend(bs[..i], o, bs[i], g);
    BookedJoin(bs[..i], bs[i + 1..], o, g);
  }

  /** The same bookings, but for some without members, hold the same. */
  lemma {:induction false} SameTotal(bs: seq<Booking>, cs: seq<Booking>, o: Orders, g: Group)
    requires NoRepeats(bs) && NoRepeats(cs) && forall b :: b in cs ==> b in bs
    requires forall b :: b in bs && b !in cs ==> Amount(OrderIn(o, b), g) == 0
    ensures Booked(bs, o, g) == Booked(cs, o, g)
  {
    hide Amount, OrderIn;
    if bs == [] {
      if cs != [] { assert false; }
    } else {
      var n := |bs| - 1;
      var b := bs[n];
      assert forall c :: c in bs <==> c == b || c in bs[..n];
      assert b !in bs[..n] && NoRepeats(bs[..n]);
      if b in cs {
        var i :| 0 <= i < |cs| && cs[i] == b;
        var rest := cs[..i] + cs[i + 1..];
        BookedBeside(cs, o, g, i);
        var k := RemovedIs(cs, b, rest);
        SameTotal(bs[..n], rest, o, g);
      } else {
        SameTotal(bs[..n], cs, o, g);
      }
    }
  }

  lemma NoRepeatsJoin<T>(s: seq<T>, t: seq<T>)
    requires NoRepeats(s) && NoRepeats(t) && forall x :: x in s ==> x !in t
    ensures NoRepeats(s + t)
  {
    var r := s + t;
    forall i, j | 0 <= i < j < |r|
      ensures r[i] != r[j]
    {
      if i < |s| { assert r[i] in s; }
      if j >= |s| { assert r[j] in t; }
    }
  }

  /** Each booking on these hosts is there once. */
  lemma {:induction false} OnHostsOnce(s: Setup, bs: seq<Booking>, st: State, hs: seq<Host>)
    requires Balanced(s, bs, st) && NoRepeats(hs) && forall h :: h in hs ==> h in s.hosts
    ensures NoRepeats(OnHosts(hs, st.hosting))
    ensures forall b :: b in OnHosts(hs, st.hosting) ==> b in st.hostOf && st.hostOf[b] in hs
    ensures forall b :: b in st.hostOf && st.hostOf[b] in hs ==> b in OnHosts(hs, st.hosting)
  {
    hide UsedBy, Booked, OrdersOk, CountsOk;
    if hs != [] {
      var n := |hs| - 1;
      var h := hs[n];
      assert h in hs && forall k :: k in hs <==> k == h || k in hs[..n];
      OnHostsOnce(s, bs, st, hs[..n]);
      assert HostOk(s, h, st);
      HostedIn(s, bs, st);
      NoRepeatsJoin(OnHosts(hs[..n], st.hosting), st.hosting[h]);
    }
  }

  lemma HostsTotal(s: Setup, graph: Graph<Group>, bs: seq<Booking>, st: State, hs: seq<Host>, g: Group)
    requires Correct(s, graph, bs, st) && NoRepeats(hs) && SetOf(hs) == s.hosts && g in s.all
    ensures Booked(OnHosts(hs, st.hosting), st.order, g) == s.size[g]
  {
    hide UsedBy, Booked, HostOk, OrdersOk, CountsOk, Peaceful, WithinLimits, EnoughOn, ClassesKnown,
      SharedHosts, OnHosts;
    assert forall h :: h in hs ==> h in SetOf(hs);
    OnHostsOnce(s, bs, st, hs);
    HostedIn(s, bs, st);
    assert forall h :: h in s.hosts ==> h in SetOf(hs);
    forall b | b in OnHosts(hs, st.hosting)
      ensures b in bs
    {
      assert b in st.hostOf;
    }
    SameTotal(bs, OnHosts(hs, st.hosting), st.order, g);
  }

  /** How many of the hosts have members of g. */
  function Carriers(hs: seq<Host>, st: State, g: Group): nat {
    if hs == [] then 0
    else
      var h := hs[|hs| - 1];
      Carriers(hs[..|hs| - 1], st, g) + if h in st.hosting && Booked(st.hosting[h], st.order, g) > 0 then 1 else 0
  }

  lemma NoneHeld(o: Orders, g: Group)
    ensures Booked([], o, g) == 0
  {
  }

  lemma {:induction false} CarriedAtMost(hs: seq<Host>, st: State, g: Group, limit: nat)
    requires forall h :: h in hs && h in st.hosting ==> 0 <= Booked(st.hosting[h], st.order, g) <= limit
    ensures Booked(OnHosts(hs, st.hosting), st.order, g) <= limit * Carriers(hs, st, g)
  {
    hide Booked;
    if hs == [] {
      NoneHeld(st.order, g);
    } else {
      var n := |hs| - 1;
      var h := hs[n];
      assert h in hs && forall k :: k in hs[..n] ==> k in hs;
      CarriedAtMost(hs[..n], st, g, limit);
      assert limit * (Carriers(hs[..n], st, g) + 1) == limit * Carriers(hs[..n], st, g) + limit;
      NoneHeld(st.order, g);
      BookedJoin(OnHosts(hs[..n], st.hosting), if h in st.hosting then st.hosting[h] else [], st.order, g);
    }
  }

  lemma {:induction false} CarriedAtLeast(hs: seq<Host>, st: State, a: Group, b: Group, least: nat)
    requires forall h :: h in hs && h in st.hosting ==> Booked(st.hosting[h], st.order, a) >= 0
    requires forall h :: h in hs && h in st.hosting && Booked(st.hosting[h], st.order, b) > 0 ==>
      Booked(st.hosting[h], st.order, a) >= least
    ensures Booked(OnHosts(hs, st.hosting), st.order, a) >= least * Carriers(hs, st, b)
  {
    hide Booked;
    if hs == [] {
      NoneHeld(st.order, a);
    } else {
      var n := |hs| - 1;
      var h := hs[n];
      assert h in hs && forall k :: k in hs[..n] ==> k in hs;
      CarriedAtLeast(hs[..n], st, a, b, least);
      assert least * (Carriers(hs[..n], st, b) + 1) == least * Carriers(hs[..n], st, b) + least;
      NoneHeld(st.order, a);
      BookedJoin(OnHosts(hs[..n], st.hosting), if h in st.hosting then st.hosting[h] else [], st.order, a);
    }
  }

  lemma {:induction false} HostList(hosts: set<Host>) returns (hs: seq<Host>)
    ensures NoRepeats(hs) && SetOf(hs) == hosts
  {
    if hosts == {} {
      hs := [];
    } else {
      var h :| h in hosts;
      var rest := HostList(hosts - {h});
      assert forall k :: k in rest ==> k in SetOf(rest);
      hs := rest + [h];
      assert SetOf(hs) == SetOf(rest) + {h};
    }
  }

  /** What a host has of a group, in a correct placement. */
  lemma HostShare(s: Setup, graph: Graph<Group>, bs: seq<Booking>, st: State, h: Host, g: Group)
    requires Correct(s, graph, bs, st) && h in s.hosts && g in s.all
    ensures h in st.hosting && Enough(Booked(st.hosting[h], st.order, g), s.least[g])
    ensures 0 <= Booked(st.hosting[h], st.order, g) <= LimitOf(s.size[g], s.limit[g])
  {
    hide UsedBy, Booked, Peaceful, ClassesKnown, SharedHosts, HostOk, CountsOk, OrderOk;
    assert EnoughOn(s, st.hosting[h], st.order) && WithinLimits(s, st.hosting[h], st.order);
    HostOrders(s, bs, st, h);
    BookedEnough(s, st.hosting[h], st.order, g);
    HostPart(s, bs, st, h, g);
  }

  lemma HostPart(s: Setup, bs: seq<Booking>, st: State, h: Host, g: Group)
    requires Balanced(s, bs, st) && h in s.hosts && g in s.all
    ensures Booked(st.hosting[h], st.order, g) <= s.size[g]
  {
    hide UsedBy, Booked, OrderOk;
    assert HostOk(s, h, st);
    HostedIn(s, bs, st);
    var rest := Others(bs, st.hosting[h]);
    SameTotal(bs, st.hosting[h] + rest, st.order, g);
    BookedJoin(st.hosting[h], rest, st.order, g);
    assert forall b :: b in bs ==> b in st.order && OrderOk(s, b, OrderIn(st.order, b));
    BookedEnough(s, rest, st.order, g);
  }

  /** The bookings not among on. */
  lemma {:induction false} Others(bs: seq<Booking>, on: seq<Booking>) returns (rest: seq<Booking>)
    requires NoRepeats(bs) && NoRepeats(on)
    ensures NoRepeats(on + rest) && (forall b :: b in rest ==> b in bs) && forall b :: b in bs ==> b in on + rest
  {
    rest := [];
    if bs != [] {
      var n := |bs| - 1;
      rest := Others(bs[..n], on);
      assert bs[n] !in bs[..n] && forall b :: b in bs <==> b == bs[n] || b in bs[..n];
      if bs[n] !in on {
        NoRepeatsJoin(on + rest, [bs[n]]);
        assert on + (rest + [bs[n]]) == (on + rest) + [bs[n]];
        rest := rest + [bs[n]];
      }
    }
  }

  /** As many hosts as b needs must each have enough of a: if a has too few members for that,
      every correct placement has a host with b and without a, bound or not. */
  lemma BoundButApart(s: Setup, graph: Graph<Group>, bs: seq<Booking>, st: State, a: Group, b: Group) returns (h: Host)
    requires Correct(s, graph, bs, st) && a in s.all && b in s.all && s.size[b] > 0
    requires CeilDiv(s.size[b], LimitOf(s.size[b], s.limit[b])) * s.least[a] > s.size[a]
    ensures h in s.hosts && h in st.hosting
    ensures Booked(st.hosting[h], st.order, b) > 0 && Booked(st.hosting[h], st.order, a) == 0
  {
    hide Correct, CeilDiv, Booked, OnHosts, Carriers;
    SetupValid(s, graph, bs, st);
    assert LimitOf(s.size[b], s.limit[b]) > 0;
    hide LimitOf;
    var hs := HostList(s.hosts);
    assert forall k :: k in hs <==> k in SetOf(hs);
    forall k | k in hs
      ensures k in s.hosts && k in st.hosting && Booked(st.hosting[k], st.order, a) >= 0
      ensures Enough(Booked(st.hosting[k], st.order, a), s.least[a])
      ensures 0 <= Booked(st.hosting[k], st.order, b) <= LimitOf(s.size[b], s.limit[b])
    {
      HostShare(s, graph, bs, st, k, a);
      HostShare(s, graph, bs, st, k, b);
    }
    if forall k :: k in hs && Booked(st.hosting[k], st.order, b) > 0 ==> Booked(st.hosting[k], st.order, a) != 0 {
      HostsTotal(s, graph, bs, st, hs, a);
      HostsTotal(s, graph, bs, st, hs, b);
      CarriedAtMost(hs, st, b, LimitOf(s.size[b], s.limit[b]));
      CarriedAtLeast(hs, st, a, b, s.least[a]);
      NeedsCarriers(s.size[b], LimitOf(s.size[b], s.limit[b]), Carriers(hs, st, b), s.least[a]);
      assert false;
    } else {
      h :| h in hs && Booked(st.hosting[h], st.order, b) > 0 && Booked(st.hosting[h], st.order, a) == 0;
    }
  }

  lemma SetupValid(s: Setup, graph: Graph<Group>, bs: seq<Booking>, st: State)
    requires Correct(s, graph, bs, st)
    ensures s.Valid()
  {
  }

  lemma NeedsCarriers(size: int, limit: int, carriers: nat, least: nat)
    requires limit > 0 && size <= limit * carriers
    ensures CeilDiv(size, limit) * least <= carriers * least
  {
    CeilDivBounds(size, limit);
    var n := CeilDiv(size, limit);
    hide CeilDiv;
    if n > carriers { MulOrder(carriers + 1, n, limit); }
    MulOrder(n, carriers, least);
  }
}
