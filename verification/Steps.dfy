/** The steps of a placement on hosts, groups and bookings, each tied to what it does on plain
    values. */
module Steps {
  import opened Groups
  import opened Bookings
  import opened Ledger

  /** The setup's limits are the groups' own. */
  ghost predicate Fits(s: Setup)
    reads s.all`maxNum, s.all`minNum
  {
    s.Valid() && forall g {:trigger g in s.all} :: g in s.all ==> g.maxNum == s.limit[g] && Least(g) == s.least[g]
  }

  // The objects hold what the state st says.
  ghost predicate OrdersAgree(order: Orders)
    reads order.Keys`order
  {
    forall b {:trigger b in order} :: b in order ==> b.order == order[b]
  }

  ghost predicate HostsAgree(bookings: set<Booking>, hostOf: map<Booking, Host>)
    reads bookings`host
  {
    forall b {:trigger b in bookings} :: b in bookings ==> b.host == if b in hostOf then hostOf[b] else null
  }

  ghost predicate HostingAgrees(s: Setup, hosting: map<Host, seq<Booking>>)
    reads s.hosts`bookings
  {
    hosting.Keys == s.hosts && forall h {:trigger h in s.hosts} :: h in s.hosts ==> h.bookings == hosting[h]
  }

  ghost predicate FreeAgrees(s: Setup, free: map<Host, Use>)
    reads s.hosts`freeDisc, s.hosts`availableRAM, s.hosts`bookedMembers
  {
    free.Keys == s.hosts && forall h {:trigger h in s.hosts} :: h in s.hosts ==> h.Free() == free[h]
  }

  ghost predicate CountsAgree(s: Setup, count: map<Group, int>)
    reads s.all`count
  {
    count.Keys == s.all && forall g {:trigger g in s.all} :: g in s.all ==> g.count == count[g]
  }

  ghost predicate Agrees(s: Setup, st: State)
    reads s.all, s.hosts, st.order.Keys
  {
    && OrdersAgree(st.order) && HostsAgree(st.order.Keys, st.hostOf) && HostingAgrees(s, st.hosting)
    && FreeAgrees(s, st.free) && CountsAgree(s, st.count)
  }

  ghost predicate InBalance(s: Setup, bs: seq<Booking>, st: State)
    reads s.all, s.hosts, st.order.Keys
  {
    Fits(s) && Agrees(s, st) && Balanced(s, bs, st)
  }

  /** What the balance says about one booking on the heap. */
  lemma BookingInBalance(s: Setup, bs: seq<Booking>, st: State, b: Booking)
    requires InBalance(s, bs, st) && b in bs
    ensures b in st.order && (b.host != null <==> b in st.hostOf)
    ensures b.WithinMax()
    ensures forall g :: g in b.pattern.members ==> g in s.all && g.count >= 0
    ensures b.host != null ==> b.host in s.hosts
    ensures OrderOk(s, b, b.order) && b in st.order && (b in st.hostOf ==> st.hostOf[b] in st.free)
  {
    assert OrderOk(s, b, st.order[b]);
    if b.host != null { assert Placed(s, bs, st, b); }
    assert forall g :: g in s.all ==> g.count == st.count[g];
  }

  // Setting aside the part of the heap that a step changes.

  /** FreeAgrees for some of the hosts. */
  ghost predicate FreeOf(hosts: set<Host>, free: map<Host, Use>)
    reads hosts`freeDisc, hosts`availableRAM, hosts`bookedMembers
  {
    forall h {:trigger h in hosts} :: h in hosts ==> h in free && h.Free() == free[h]
  }

  lemma FreeParts(s: Setup, free: map<Host, Use>, h: Host)
    requires FreeAgrees(s, free) && h in s.hosts
    ensures FreeOf(s.hosts - {h}, free) && h in free && h.Free() == free[h] && free.Keys == s.hosts
  {
  }

  lemma FreeJoin(s: Setup, free: map<Host, Use>, h: Host)
    requires FreeOf(s.hosts - {h}, free) && free.Keys == s.hosts && h in free && h.Free() == free[h]
    ensures FreeAgrees(s, free)
  {
    forall k | k in s.hosts
      ensures k.Free() == free[k]
    {
      assert k == h || k in s.hosts - {h};
    }
  }

  lemma FreeSame(hosts: set<Host>, free: map<Host, Use>, free': map<Host, Use>)
    requires FreeOf(hosts, free)
    requires forall h {:trigger h in hosts} :: h in hosts ==> h in free' && (h in free ==> free[h] == free'[h])
    ensures FreeOf(hosts, free')
  {
  }

  /** OrdersAgree for some of the bookings. */
  ghost predicate OrdersOf(bookings: set<Booking>, order: Orders)
    reads bookings`order
  {
    forall b {:trigger b in bookings} :: b in bookings ==> b in order && b.order == order[b]
  }

  /** CountsAgree for some of the groups. */
  ghost predicate CountsOf(groups: set<Group>, count: map<Group, int>)
    reads groups`count
  {
    forall g {:trigger g in groups} :: g in groups ==> g in count && g.count == count[g]
  }

  lemma Parts(s: Setup, st: State, b: Booking)
    requires OrdersAgree(st.order) && b in st.order && CountsAgree(s, st.count) && b.pattern.members <= s.all
    ensures OrdersOf(st.order.Keys - {b}, st.order) && b.order == st.order[b]
    ensures CountsOf(s.all - b.pattern.members, st.count) && CountsOf(b.pattern.members, st.count)
    ensures st.count.Keys == s.all
  {
  }

  lemma CountsJoin(s: Setup, st: State, members: set<Group>)
    requires CountsOf(s.all - members, st.count) && CountsOf(members, st.count) && st.count.Keys == s.all
    ensures CountsAgree(s, st.count)
  {
    forall g | g in s.all
      ensures g.count == st.count[g]
    {
      assert g in members || g in s.all - members;
    }
  }

  lemma OrdersJoin(st: State, b: Booking)
    requires OrdersOf(st.order.Keys - {b}, st.order) && b in st.order && b.order == st.order[b]
    ensures OrdersAgree(st.order)
  {
    forall c | c in st.order
      ensures c.order == st.order[c]
    {
      assert c == b || c in st.order.Keys - {b};
    }
  }

  /** After b was split. */
  lemma OrdersSplit(st: State, b: Booking, h: Host?, nb: Booking)
    requires OrdersOf(st.order.Keys - {b}, st.order) && b in st.order && nb !in st.order
    requires (b in st.hostOf ==> st.hostOf[b] in st.free)
    requires b.order == FirstHalf(st.order[b], b.pattern.groups) && nb.order == OtherHalf(st.order[b], b.pattern.groups)
    requires HostsAgree(st.order.Keys - {b}, st.hostOf) && b.host == h
    requires h == if b in st.hostOf then st.hostOf[b] else null
    requires nb.host == null && nb !in st.hostOf
    ensures var st' := SplitStep(st, b, nb); OrdersAgree(st'.order) && HostsAgree(st'.order.Keys, st'.hostOf)
  {
    hide UseOf, FirstHalf, OtherHalf;
    var st' := SplitStep(st, b, nb);
    forall c | c in st'.order
      ensures c.order == st'.order[c] && c.host == if c in st'.hostOf then st'.hostOf[c] else null
    {
      assert c == b || c == nb || c in st.order.Keys - {b};
    }
  }

  lemma AgreeInBalance(s: Setup, bs: seq<Booking>, st: State)
    requires Fits(s) && OrdersAgree(st.order) && HostsAgree(st.order.Keys, st.hostOf) && HostingAgrees(s, st.hosting)
    requires FreeAgrees(s, st.free) && CountsAgree(s, st.count) && Balanced(s, bs, st)
    ensures InBalance(s, bs, st)
  {
  }

  lemma CanSplit(s: Setup, bs: seq<Booking>, st: State, b: Booking)
    requires InBalance(s, bs, st) && b in bs
    ensures b.WithinMax() && b in st.order && (b.host != null ==> b.host in st.free && b.host in st.hosting)
    ensures forall g :: g in b.pattern.members ==> g in st.count && g.count >= 0
  {
    BookingInBalance(s, bs, st, b);
    if b.host != null { assert Placed(s, bs, st, b); }
    assert OrderOk(s, b, st.order[b]);
  }

  lemma SplitReady(s: Setup, bs: seq<Booking>, st: State, b: Booking)
    requires InBalance(s, bs, st) && b in bs
    ensures Ready(s, bs, st, b, b.host)
    ensures b.Splittable() ==> Halvable(s, b, st.order[b])
  {
    hide HostOk, CountsOk;
    assert OrderOk(s, b, st.order[b]);
    BookingInBalance(s, bs, st, b);
    if b.host != null { assert Placed(s, bs, st, b); }
    assert b in st.order.Keys;
  }

  lemma HostNotBooked(s: Setup, bs: seq<Booking>, st: State, b: Booking)
    requires InBalance(s, bs, st) && b in bs && b.host != null
    ensures b.host in s.hosts && b in st.hostOf && st.hostOf[b] == b.host && b in b.host.bookings
    ensures b.host in st.hosting && b.host.bookings == st.hosting[b.host] && b.host in st.free
  {
    hide HostOk, OrderOk, CountsOk;
    HostedIn(s, bs, st);
    assert b in st.order.Keys;
  }

  lemma HostsBeside(st: State, b: Booking)
    requires HostsAgree(st.order.Keys, st.hostOf)
    ensures HostsAgree(st.order.Keys - {b}, st.hostOf)
  {
  }

  /** HostingAgrees for some of the hosts. */
  ghost predicate HostingOf(hosts: set<Host>, hosting: map<Host, seq<Booking>>)
    reads hosts`bookings
  {
    forall h {:trigger h in hosts} :: h in hosts ==> h in hosting && h.bookings == hosting[h]
  }

  lemma HostingParts(s: Setup, st: State, h: Host)
    requires HostingAgrees(s, st.hosting)
    ensures HostingOf(s.hosts - {h}, st.hosting) && st.hosting.Keys == s.hosts
  {
  }

  ghost function Others(s: Setup, h: Host?): set<Host> {
    if h == null then s.hosts else s.hosts - {h}
  }

  /** These bookings are as the state says. */
  ghost predicate BookingsStated(st: State, bookings: set<Booking>)
    reads bookings`order, bookings`host
  {
    OrdersOf(bookings, st.order) && HostsAgree(bookings, st.hostOf)
  }

  /** These hosts are. */
  ghost predicate HostsStated(st: State, hosts: set<Host>)
    reads hosts`freeDisc, hosts`availableRAM, hosts`bookedMembers, hosts`bookings
  {
    FreeOf(hosts, st.free) && HostingOf(hosts, st.hosting)
  }

  /** Everything but b, its groups and its host h is as the state says. */
  ghost predicate Elsewhere(s: Setup, st: State, b: Booking, h: Host?)
    reads s.all, s.hosts, st.order.Keys
  {
    && BookingsStated(st, st.order.Keys - {b}) && CountsOf(s.all - b.pattern.members, st.count)
    && HostsStated(st, Others(s, h))
  }

  /** b is on h, or nowhere. */
  ghost predicate Located(s: Setup, st: State, b: Booking, h: Host?) {
    && b in st.order && st.order[b].Keys == b.pattern.members <= s.all
    && st.count.Keys == s.all && st.free.Keys == s.hosts && st.hosting.Keys == s.hosts
    && (if h == null then b !in st.hostOf else h in s.hosts && b in st.hostOf && st.hostOf[b] == h)
  }

  lemma SetApart(s: Setup, bs: seq<Booking>, st: State, b: Booking)
    requires InBalance(s, bs, st) && b in bs
    ensures Located(s, st, b, b.host)
    ensures BookingsStated(st, st.order.Keys - {b}) && CountsOf(s.all - b.pattern.members, st.count)
    ensures HostsStated(st, Others(s, b.host))
    ensures Fits(s) && Balanced(s, bs, st)
    ensures b.order == st.order[b] && b.Shape()
    ensures forall g :: g in b.pattern.members ==> g.count == st.count[g]
    ensures b.host != null ==>
      b in b.host.bookings && b.host.bookings == st.hosting[b.host] && b.host.Free() == st.free[b.host]
  {
    hide HostsAgree, HostingAgrees, FreeAgrees, CountsAgree, OrdersAgree, OrdersOf, FreeOf, HostingOf, CountsOf, Fits,
      Balanced, OrderOk;
    BookingInBalance(s, bs, st, b);
    BookingsKnown(s, bs, st);
    OrderKeys(s, bs, st, b);
    Parts(s, st, b);
    CountsKnown(st, b);
    HostsBeside(st, b);
    AllHosts(s, st);
    if b.host != null {
      HostNotBooked(s, bs, st, b);
      FreeParts(s, st.free, b.host);
      HostingParts(s, st, b.host);
    }
  }

  lemma AllHosts(s: Setup, st: State)
    requires FreeAgrees(s, st.free) && HostingAgrees(s, st.hosting)
    ensures FreeOf(s.hosts, st.free) && HostingOf(s.hosts, st.hosting) && st.free.Keys == s.hosts
    ensures st.hosting.Keys == s.hosts
  {
  }

  lemma AllHostsAgree(s: Setup, free: map<Host, Use>, hosting: map<Host, seq<Booking>>)
    requires FreeOf(s.hosts, free) && HostingOf(s.hosts, hosting) && free.Keys == s.hosts && hosting.Keys == s.hosts
    ensures FreeAgrees(s, free) && HostingAgrees(s, hosting)
  {
  }

  lemma OrderKeys(s: Setup, bs: seq<Booking>, st: State, b: Booking)
    requires InBalance(s, bs, st) && b in bs
    ensures b in st.order && st.order[b].Keys == b.pattern.members <= s.all && b.Shape()
  {
    hide HostOk, CountsOk;
    assert OrderOk(s, b, st.order[b]);
    if b.host != null { assert Placed(s, bs, st, b); }
  }

  lemma CountsKnown(st: State, b: Booking)
    requires CountsOf(b.pattern.members, st.count)
    ensures forall g :: g in b.pattern.members ==> g in st.count && g.count == st.count[g]
  {
  }

  /** Nothing was done to the booking. */
  lemma StillInBalance(s: Setup, bs: seq<Booking>, st: State, b: Booking, h: Host?)
    requires Ready(s, bs, st, b, h) && Fits(s) && Halved(st, b, h, null) && Elsewhere(s, st, b, h)
    ensures InBalance(s, bs, st)
  {
    hide HostingAgrees, FreeAgrees, CountsAgree, OrdersAgree, OrdersOf, FreeOf, HostingOf, Fits, Balanced, OrderOk;
    CountsJoin(s, st, b.pattern.members);
    OrdersJoin(st, b);
    HostsTogether(st, st.order.Keys, b, h);
    if h == null {
      AllHostsAgree(s, st.free, st.hosting);
    } else {
      FreeJoin(s, st.free, h);
      HostingJoin(s, st.hosting, h);
    }
    AgreeInBalance(s, bs, st);
  }

  lemma HostsTogether(st: State, bookings: set<Booking>, b: Booking, h: Host?)
    requires HostsAgree(bookings - {b}, st.hostOf) && b.host == h && h == if b in st.hostOf then st.hostOf[b] else null
    ensures HostsAgree(bookings, st.hostOf)
  {
    forall c | c in bookings
      ensures c.host == if c in st.hostOf then st.hostOf[c] else null
    {
      assert c == b || c in bookings - {b};
    }
  }

  lemma HostingJoin(s: Setup, hosting: map<Host, seq<Booking>>, h: Host)
    requires HostingOf(s.hosts - {h}, hosting) && hosting.Keys == s.hosts && h in s.hosts && h.bookings == hosting[h]
    ensures HostingAgrees(s, hosting)
  {
    forall k | k in s.hosts
      ensures k.bookings == hosting[k]
    {
      assert k == h || k in s.hosts - {h};
    }
  }

  /** b was halved; nb is the other half. */
  lemma SplitInBalance(s: Setup, bs: seq<Booking>, st: State, b: Booking, h: Host?, nb: Booking)
    requires Ready(s, bs, st, b, h) && Fits(s) && Halved(st, b, h, nb) && Elsewhere(s, st, b, h)
    requires nb !in bs && Halvable(s, b, st.order[b])
    ensures InBalance(s, bs + [nb], SplitStep(st, b, nb))
  {
    hide HostsAgree, HostingAgrees, FreeAgrees, CountsAgree, OrdersAgree, OrdersOf, FreeOf, HostingOf, Fits, Balanced,
      UseOf, FirstHalf, OtherHalf, SplitStep, OrderOk, Halvable;
    BookingsOfState(s, bs, st);
    CountsJoin(s, st, b.pattern.members);
    SplitKeeps(s, bs, st, b, nb);
    SplitSame(st, b, nb);
    OrdersSplit(st, b, h, nb);
    if h == null {
      AllHostsAgree(s, st.free, st.hosting);
    } else {
      FreeSplit(s, st, b, nb, h);
      HostingJoin(s, st.hosting, h);
    }
    AgreeInBalance(s, bs + [nb], SplitStep(st, b, nb));
  }

  lemma BookingsOfState(s: Setup, bs: seq<Booking>, st: State)
    requires Balanced(s, bs, st)
    ensures st.order.Keys == SetOf(bs) && forall c :: c in st.hostOf ==> c in bs
  {
    hide HostOk, OrderOk, CountsOk;
    HostedIn(s, bs, st);
  }

  /** b's and nb's orders, and b's host, once b has been split, or could not be. */
  ghost predicate Halved(st: State, b: Booking, h: Host?, nb: Booking?)
    requires b in st.order && (h != null ==> h in st.free && h in st.hosting)
    reads b, b.pattern.members, if h == null then {} else {h}, if nb == null then {} else {nb}
  {
    && b.host == h && (h != null ==> h.bookings == st.hosting[h])
    && (forall g :: g in b.pattern.members ==> g in st.count && g.count == st.count[g])
    && var o, gs := st.order[b], b.pattern.groups;
      if nb == null then b.order == o && (h != null ==> h.Free() == st.free[h])
      else && nb.pattern == b.pattern && nb.host == null && b.order == FirstHalf(o, gs) && nb.order == OtherHalf(o, gs)
           && (h != null ==> h.Free() == st.free[h].Plus(UseOf(gs, OtherHalf(o, gs), h.cpuArch)))
  }

  /** What splitting b leaves alone. */
  ghost predicate Ready(s: Setup, bs: seq<Booking>, st: State, b: Booking, h: Host?) {
    && s.Valid() && Balanced(s, bs, st) && b in bs && Located(s, st, b, h) && OrderOk(s, b, st.order[b])
  }

  method SplitApart(ghost s: Setup, b: Booking, ghost bs: seq<Booking>, ghost st: State) returns (nb: Booking?)
    requires InBalance(s, bs, st) && b in bs
    modifies b`order, b.pattern.members`count, b.HostSet()`freeDisc, b.HostSet()`availableRAM, b.HostSet()`bookedMembers
    ensures Located(s, st, b, b.host) && Fits(s) && Halved(st, b, b.host, nb)
    ensures BookingsStated(st, st.order.Keys - {b}) && CountsOf(s.all - b.pattern.members, st.count)
    ensures HostsStated(st, Others(s, b.host))
    ensures nb != null ==> fresh(nb)
    ensures nb == null <==> !old(b.Splittable())
  {
    hide InBalance, BookingsStated, HostsStated, CountsOf, Fits, Balanced, UseOf, FirstHalf, OtherHalf,
      Booking.WithinMax, Booking.Splittable, Located;
    SetApart(s, bs, st, b);
    CanSplit(s, bs, st, b);
    nb := b.SplitBooking();
  }

  lemma AtLeastTwoEach(s: Setup, b: Booking, o: Order)
    requires s.Valid() && OrderOk(s, b, o) && Halvable(s, b, o)
    ensures forall g :: g in b.pattern.members ==> g in o && o[g] >= 2
  {
  }

  /** Splitting a booking that is on no host yet. */
  method SplitUnplaced(ghost s: Setup, b: Booking, ghost bs: seq<Booking>, ghost st: State)
    returns (nb: Booking?, ghost bs': seq<Booking>, ghost st': State)
    requires InBalance(s, bs, st) && b in bs && b.host == null
    modifies b`order, b.pattern.members`count
    ensures InBalance(s, bs', st')
    ensures nb == null ==> bs' == bs && st' == st
    ensures nb != null ==> fresh(nb) && nb !in bs && nb.pattern == b.pattern && bs' == bs + [nb]
    ensures nb != null ==> b in st.order && b !in st.hostOf && st' == SplitStep(st, b, nb)
    ensures nb == null <==> !old(b.Splittable())
    ensures nb != null ==> b in st.order && forall g :: g in b.pattern.members ==>
      g in st.order[b] && st.order[b][g] >= 2
  {
    hide InBalance, BookingsStated, HostsStated, CountsOf, Fits, Balanced, OrderOk, UseOf, FirstHalf, OtherHalf,
      Booking.Splittable, SplitStep, Halvable;
    SplitReady(s, bs, st, b);
    nb := SplitApart(s, b, bs, st);
    if nb == null {
      bs', st' := bs, st;
      StillInBalance(s, bs, st, b, null);
    } else {
      bs', st' := bs + [nb], SplitStep(st, b, nb);
      SplitInBalance(s, bs, st, b, null, nb);
      AtLeastTwoEach(s, b, st.order[b]);
    }
  }

  /** Splitting a booking on its host: the new half's resources are free there again. */
  method SplitPlaced(ghost s: Setup, b: Booking, ghost bs: seq<Booking>, ghost st: State)
    returns (nb: Booking?, ghost bs': seq<Booking>, ghost st': State)
    requires InBalance(s, bs, st) && b in bs && b.host != null
    modifies b`order, b.pattern.members`count, b.host`freeDisc, b.host`availableRAM, b.host`bookedMembers
    ensures InBalance(s, bs', st')
    ensures nb == null ==> bs' == bs && st' == st
    ensures nb != null ==> fresh(nb) && nb !in bs && nb.pattern == b.pattern && bs' == bs + [nb]
    ensures nb != null ==> b in st.order && b in st.hostOf && st.hostOf[b] in st.free && st' == SplitStep(st, b, nb)
    ensures nb == null <==> !old(b.Splittable())
    ensures nb != null ==> b in st.order && forall g :: g in b.pattern.members ==>
      g in st.order[b] && st.order[b][g] >= 2
  {
    hide InBalance, BookingsStated, HostsStated, CountsOf, Fits, Balanced, OrderOk, UseOf, FirstHalf, OtherHalf,
      Booking.Splittable, SplitStep, Halvable;
    SplitReady(s, bs, st, b);
    nb := SplitApart(s, b, bs, st);
    if nb == null {
      bs', st' := bs, st;
      StillInBalance(s, bs, st, b, b.host);
    } else {
      bs', st' := bs + [nb], SplitStep(st, b, nb);
      SplitInBalance(s, bs, st, b, b.host, nb);
      AtLeastTwoEach(s, b, st.order[b]);
    }
  }

  lemma SplitSame(st: State, b: Booking, nb: Booking)
    requires b in st.order && (b in st.hostOf ==> st.hostOf[b] in st.free)
    ensures var st' := SplitStep(st, b, nb);
      st'.hostOf == st.hostOf && st'.hosting == st.hosting && st'.count == st.count
      && (b !in st.hostOf ==> st'.free == st.free)
  {
  }

  lemma BookingsKnown(s: Setup, bs: seq<Booking>, st: State)
    requires InBalance(s, bs, st)
    ensures st.order.Keys == SetOf(bs) && (forall c :: c in st.hostOf ==> c in bs) && s.Valid()
  {
    forall c | c in st.hostOf
      ensures c in bs
    {
      assert Placed(s, bs, st, c);
    }
  }

  lemma OrdersRemoved(st: State, b: Booking, rest: seq<Booking>)
    requires OrdersOf(st.order.Keys - {b}, st.order) && b in st.order && (b in st.hostOf ==> st.hostOf[b] in st.free)
    requires b.order == Emptied(st.order[b], b.pattern.groups)
    ensures OrdersAgree(RemoveStep(st, b, rest).order) && RemoveStep(st, b, rest).order.Keys == st.order.Keys
  {
    hide UseOf, Emptied;
    var order := RemoveStep(st, b, rest).order;
    forall c | c in order
      ensures c.order == order[c]
    {
      assert c == b || c in st.order.Keys - {b};
    }
  }

  lemma CountsRemoved(s: Setup, st: State, b: Booking, rest: seq<Booking>)
    requires CountsOf(s.all - b.pattern.members, st.count) && st.count.Keys == s.all && b.pattern.members <= s.all
    requires b in st.order && st.order[b].Keys == b.pattern.members && (b in st.hostOf ==> st.hostOf[b] in st.free)
    requires forall g :: g in b.pattern.members ==> g.count == st.count[g] + Amount(st.order[b], g)
    ensures CountsAgree(s, RemoveStep(st, b, rest).count)
  {
    hide UseOf;
    var count := RemoveStep(st, b, rest).count;
    forall g | g in s.all
      ensures g.count == count[g]
    {
      assert g in b.pattern.members || g in s.all - b.pattern.members;
    }
  }

  lemma HostsRemoved(st: State, b: Booking, rest: seq<Booking>)
    requires HostsAgree(st.order.Keys - {b}, st.hostOf) && b.host == null && b in st.order
    requires b in st.hostOf ==> st.hostOf[b] in st.free
    ensures HostsAgree(st.order.Keys, RemoveStep(st, b, rest).hostOf)
  {
    hide UseOf;
    var hostOf := RemoveStep(st, b, rest).hostOf;
    forall c | c in st.order.Keys
      ensures c.host == if c in hostOf then hostOf[c] else null
    {
      assert c == b || c in st.order.Keys - {b};
    }
  }

  lemma SameHosts(st: State, b: Booking, rest: seq<Booking>)
    requires b in st.order && b !in st.hostOf
    ensures RemoveStep(st, b, rest).hosting == st.hosting && RemoveStep(st, b, rest).free == st.free
  {
  }

  lemma HostRemoved(s: Setup, st: State, b: Booking, h: Host, rest: seq<Booking>)
    requires b in st.order && b in st.hostOf && st.hostOf[b] == h && h in s.hosts
    requires FreeOf(s.hosts - {h}, st.free) && st.free.Keys == s.hosts
    requires HostingOf(s.hosts - {h}, st.hosting) && st.hosting.Keys == s.hosts && h.bookings == rest
    requires h.Free() == st.free[h].Plus(UseOf(b.pattern.groups, st.order[b], h.cpuArch))
    ensures FreeAgrees(s, RemoveStep(st, b, rest).free) && HostingAgrees(s, RemoveStep(st, b, rest).hosting)
  {
    hide UseOf;
    var st' := RemoveStep(st, b, rest);
    FreeSame(s.hosts - {h}, st.free, st'.free);
    FreeJoin(s, st'.free, h);
    forall k | k in s.hosts
      ensures k.bookings == st'.hosting[k]
    {
      assert k == h || k in s.hosts - {h};
    }
  }

  /** b holds nobody and is nowhere; h, where it was, has rest. */
  ghost predicate Gone(st: State, b: Booking, h: Host?, rest: seq<Booking>)
    requires b in st.order && (h != null ==> h in st.free)
    reads b, b.pattern.members, if h == null then {} else {h}
  {
    && b.host == null && b.order == Emptied(st.order[b], b.pattern.groups)
    && (forall g :: g in b.pattern.members ==> g in st.count && g.count == st.count[g] + Amount(st.order[b], g))
    && (h != null ==>
         h.bookings == rest && h.Free() == st.free[h].Plus(UseOf(b.pattern.groups, st.order[b], h.cpuArch)))
  }

  lemma RemovedInBalance(s: Setup, bs: seq<Booking>, st: State, b: Booking, h: Host?, rest: seq<Booking>)
    requires Located(s, st, b, h) && Elsewhere(s, st, b, h) && Fits(s) && Balanced(s, bs, st) && b in bs
    requires Beside(st, b, rest) && Gone(st, b, h, rest)
    ensures b in st.hostOf ==> st.hostOf[b] in st.free
    ensures InBalance(s, bs, RemoveStep(st, b, rest))
  {
    hide HostsAgree, HostingAgrees, FreeAgrees, CountsAgree, OrdersAgree, OrdersOf, FreeOf, HostingOf, CountsOf, Fits,
      Balanced, UseOf, Emptied, Amount, RemoveStep, IsRemoved;
    RemoveKeeps(s, bs, st, b, rest);
    OrdersRemoved(st, b, rest);
    CountsRemoved(s, st, b, rest);
    HostsRemoved(st, b, rest);
    if h == null {
      AllHostsAgree(s, st.free, st.hosting);
      SameHosts(st, b, rest);
    } else {
      HostRemoved(s, st, b, h, rest);
    }
    AgreeInBalance(s, bs, RemoveStep(st, b, rest));
  }

  lemma HostOfKnown(st: State, b: Booking)
    requires HostsAgree(st.order.Keys, st.hostOf) && b in st.order && b.host != null
    ensures b in st.hostOf && st.hostOf[b] == b.host
  {
  }

  lemma FreeSplit(s: Setup, st: State, b: Booking, nb: Booking, h: Host)
    requires FreeOf(s.hosts - {h}, st.free) && st.free.Keys == s.hosts && h in s.hosts
    requires b in st.order && b in st.hostOf && st.hostOf[b] == h
    requires h.Free() == st.free[h].Plus(UseOf(b.pattern.groups, OtherHalf(st.order[b], b.pattern.groups), h.cpuArch))
    ensures FreeAgrees(s, SplitStep(st, b, nb).free)
  {
    hide UseOf;
    var free' := SplitStep(st, b, nb).free;
    FreeSame(s.hosts - {h}, st.free, free');
    FreeJoin(s, free', h);
  }

  lemma BeforeApply(s: Setup, bs: seq<Booking>, st: State, h: Host, b: Booking)
    requires InBalance(s, bs, st) && b in bs && CanApply(s, st, h, b)
    ensures BookingsStated(st, st.order.Keys - {b}) && HostsStated(st, s.hosts - {h}) && CountsAgree(s, st.count)
    ensures Fits(s)
    ensures Balanced(s, bs, st) && b.order == st.order[b] && b.Shape() && b.host == null
    ensures h.bookings == st.hosting[h] && h.Free() == st.free[h]
  {
    hide HostsAgree, HostingAgrees, FreeAgrees, CountsAgree, OrdersAgree, OrdersOf, FreeOf, HostingOf, Fits, Balanced,
      OrderOk, Booking.WithinMax, Use.NonNegative;
    BookingInBalance(s, bs, st, b);
    OrderKeys(s, bs, st, b);
    BookingApart(st, b);
    HostsBeside(st, b);
    FreeParts(s, st.free, h);
    HostingParts(s, st, h);
    HostingKnown(s, st, h);
  }

  lemma BookingApart(st: State, b: Booking)
    requires OrdersAgree(st.order) && b in st.order
    ensures OrdersOf(st.order.Keys - {b}, st.order) && b.order == st.order[b]
  {
  }

  lemma HostingKnown(s: Setup, st: State, h: Host)
    requires HostingAgrees(s, st.hosting) && h in s.hosts
    ensures h in st.hosting && h.bookings == st.hosting[h]
  {
  }

  lemma AppliedInBalance(s: Setup, bs: seq<Booking>, st: State, h: Host, b: Booking)
    requires BookingsStated(st, st.order.Keys - {b}) && HostsStated(st, s.hosts - {h}) && CountsAgree(s, st.count)
    requires Fits(s)
    requires Balanced(s, bs, st) && b in bs && CanApply(s, st, h, b) && b.order == st.order[b] && b.host == h
    requires h.bookings == st.hosting[h] + [b]
    requires h.Free() == st.free[h].Minus(UseOf(b.pattern.groups, st.order[b], h.cpuArch))
    ensures InBalance(s, bs, ApplyStep(st, h, b))
  {
    hide FreeAgrees, CountsAgree, OrdersAgree, OrdersOf, FreeOf, Fits, Balanced, UseOf, Use.NonNegative;
    var st' := ApplyStep(st, h, b);
    ApplyKeeps(s, bs, st, h, b);
    KeysOfState(s, bs, st);
    OrdersJoin(st, b);
    FreeSame(s.hosts - {h}, st.free, st'.free);
    FreeJoin(s, st'.free, h);
    forall k | k in s.hosts
      ensures k.bookings == st'.hosting[k]
    {
      assert k == h || k in s.hosts - {h};
    }
    forall c | c in st'.order.Keys
      ensures c.host == if c in st'.hostOf then st'.hostOf[c] else null
    {
      assert c == b || c in st.order.Keys - {b};
    }
    AgreeInBalance(s, bs, st');
  }

  lemma KeysOfState(s: Setup, bs: seq<Booking>, st: State)
    requires Balanced(s, bs, st)
    ensures st.hosting.Keys == s.hosts && st.free.Keys == s.hosts
  {
  }

  /** Puts a booking on a host that accepts it. */
  method Apply(ghost s: Setup, h: Host, b: Booking, ghost bs: seq<Booking>, ghost st: State) returns (ghost st': State)
    requires InBalance(s, bs, st) && b in bs && CanApply(s, st, h, b)
    modifies h, b`host
    ensures st' == ApplyStep(st, h, b) && InBalance(s, bs, st')
  {
    hide InBalance, Balanced, BookingsStated, HostsStated, CountsAgree, Fits, UseOf, ApplyStep;
    BeforeApply(s, bs, st, h, b);
    h.ApplyBooking(b);
    st' := ApplyStep(st, h, b);
    AppliedInBalance(s, bs, st, h, b);
  }

  method Accepts(ghost s: Setup, h: Host, b: Booking, ghost bs: seq<Booking>, ghost st: State) returns (accept: bool)
    requires InBalance(s, bs, st) && b in bs && b.host == null && h in s.hosts
    ensures accept <==> CanApply(s, st, h, b)
  {
    hide Balanced, CountsAgree, UseOf;
    BookingInBalance(s, bs, st, b);
    accept := h.AcceptBooking(b);
  }

  /** Takes an unplaced split back into the booking it came from. */
  method Revert(ghost s: Setup, b: Booking, c: Booking, ghost bs: seq<Booking>, ghost st: State)
    returns (ghost st': State)
    requires InBalance(s, bs, st) && b in bs && c in bs && CanJoin(s, st, b, c) && b.host != null
    modifies b`order, c`order, b.pattern.members`count, b.host`freeDisc, b.host`availableRAM, b.host`bookedMembers
    ensures b in st.order && c in st.order && b in st.hostOf && st.hostOf[b] in st.free
    ensures st' == JoinStep(st, b, c) && InBalance(s, bs, st')
  {
    hide Fits, OrdersAgree, HostsAgree, HostingAgrees, FreeAgrees, CountsAgree, Balanced, OrderOk, UseOf, Joined,
      Emptied, Booking.WithinMax, JoinStep, OrdersOf, Use.NonNegative, FreeOf;
    BookingInBalance(s, bs, st, b);
    BookingInBalance(s, bs, st, c);
    Parts(s, st, b);
    OrdersBoth(st, b, c);
    HostOfKnown(st, b);
    ghost var h := b.host;
    FreeParts(s, st.free, h);
    b.RevertSplit(c);
    st' := JoinStep(st, b, c);
    CountsJoin(s, st, b.pattern.members);
    OrdersJoined(st, b, c);
    FreeJoined(s, st, b, c, h);
    JoinKeeps(s, bs, st, b, c);
    JoinSame(st, b, c);
    AgreeInBalance(s, bs, st');
  }

  lemma OrdersBoth(st: State, b: Booking, c: Booking)
    requires OrdersAgree(st.order) && c in st.order
    ensures OrdersOf(st.order.Keys - {b, c}, st.order) && c.order == st.order[c]
  {
  }

  lemma OrdersJoined(st: State, b: Booking, c: Booking)
    requires OrdersOf(st.order.Keys - {b, c}, st.order) && b in st.order && c in st.order && b != c
    requires b in st.hostOf ==> st.hostOf[b] in st.free
    requires b.order == Joined(st.order[b], st.order[c], b.pattern.groups)
    requires c.order == Emptied(st.order[c], b.pattern.groups)
    ensures OrdersAgree(JoinStep(st, b, c).order)
  {
    hide UseOf, Joined, Emptied;
    var st' := JoinStep(st, b, c);
    forall k | k in st'.order
      ensures k.order == st'.order[k]
    {
      assert k == b || k == c || k in st.order.Keys - {b, c};
    }
  }

  lemma JoinSame(st: State, b: Booking, c: Booking)
    requires b in st.order && c in st.order && (b in st.hostOf ==> st.hostOf[b] in st.free)
    ensures var st' := JoinStep(st, b, c);
      st'.hostOf == st.hostOf && st'.hosting == st.hosting && st'.count == st.count && st'.order.Keys == st.order.Keys
  {
  }

  lemma FreeJoined(s: Setup, st: State, b: Booking, c: Booking, h: Host)
    requires FreeOf(s.hosts - {h}, st.free) && st.free.Keys == s.hosts && h in s.hosts
    requires b in st.order && c in st.order && b in st.hostOf && st.hostOf[b] == h
    requires h.Free() == st.free[h].Minus(UseOf(b.pattern.groups, st.order[c], h.cpuArch))
    ensures FreeAgrees(s, JoinStep(st, b, c).free)
  {
    hide UseOf;
    var free' := JoinStep(st, b, c).free;
    FreeSame(s.hosts - {h}, st.free, free');
    FreeJoin(s, free', h);
  }

  /** Takes a booking from its host, if it is on one, and gives its members back. */
  method Remove(ghost s: Setup, b: Booking, ghost bs: seq<Booking>, ghost st: State)
    returns (ghost rest: seq<Booking>, ghost st': State)
    requires InBalance(s, bs, st) && b in bs
    modifies b`order, b`host, b.pattern.members`count, b.HostSet()
    ensures b in st.order && (b in st.hostOf ==> st.hostOf[b] in st.free) && Beside(st, b, rest)
    ensures st' == RemoveStep(st, b, rest) && InBalance(s, bs, st')
  {
    hide InBalance, BookingsStated, HostsStated, CountsOf, Fits, Balanced, UseOf, Emptied, Amount, RemoveStep,
      IsRemoved, Gone;
    ghost var h := b.host;
    rest := RemoveApart(s, b, bs, st);
    st' := RemoveStep(st, b, rest);
    RemovedInBalance(s, bs, st, b, h, rest);
  }

  method RemoveApart(ghost s: Setup, b: Booking, ghost bs: seq<Booking>, ghost st: State)
    returns (ghost rest: seq<Booking>)
    requires InBalance(s, bs, st) && b in bs
    modifies b`order, b`host, b.pattern.members`count, b.HostSet()
    ensures Located(s, st, b, old(b.host)) && Balanced(s, bs, st) && Fits(s)
    ensures Beside(st, b, rest) && Gone(st, b, old(b.host), rest)
    ensures BookingsStated(st, st.order.Keys - {b}) && CountsOf(s.all - b.pattern.members, st.count)
    ensures HostsStated(st, Others(s, old(b.host)))
  {
    hide InBalance, BookingsStated, HostsStated, CountsOf, Fits, Balanced, UseOf, Emptied, Amount, IsRemoved;
    ghost var h := b.host;
    SetApart(s, bs, st, b);
    b.RemoveBooking();
    rest := if h == null then [] else h.bookings;
  }
}
