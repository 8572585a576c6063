/** What every step of a placement keeps: no member is lost or booked twice, and what a
    host has free plus what its bookings use is what it had. */
module Ledger {
  import opened Groups
  import opened Bookings

  type Orders = map<Booking, Order>

  function OrderIn(o: Orders, b: Booking): Order {
    if b in o then o[b] else map[]
  }

  /** The members of g that the bookings hold together. */
  function Booked(bs: seq<Booking>, o: Orders, g: Group): int {
    if bs == [] then 0 else Booked(bs[..|bs| - 1], o, g) + Amount(OrderIn(o, bs[|bs| - 1]), g)
  }

  /** What the bookings use together on a host of this architecture. */
  function UsedBy(bs: seq<Booking>, o: Orders, arch: Arch): Use {
    if bs == [] then NOTHING
    else var b := bs[|bs| - 1];
      UsedBy(bs[..|bs| - 1], o, arch).Plus(UseOf(b.pattern.groups, OrderIn(o, b), arch))
  }

  lemma {:induction false} BookedSame(bs: seq<Booking>, o: Orders, o': Orders, g: Group)
    requires forall b :: b in bs ==> Amount(OrderIn(o, b), g) == Amount(OrderIn(o', b), g)
    ensures Booked(bs, o, g) == Booked(bs, o', g)
  {
    if bs != [] {
      BookedSame(bs[..|bs| - 1], o, o', g);
    }
  }

  lemma {:induction false} UsedSame(bs: seq<Booking>, o: Orders, o': Orders, arch: Arch)
    requires forall b :: b in bs ==> OrderIn(o, b) == OrderIn(o', b)
    ensures UsedBy(bs, o, arch) == UsedBy(bs, o', arch)
  {
    hide UseOf, Need, Amount;
    if bs != [] {
      UsedSame(bs[..|bs| - 1], o, o', arch);
    }
  }

  /** Changing one booking's order changes the totals by exactly that. */
  lemma {:induction false} BookedChange(bs: seq<Booking>, o: Orders, o': Orders, b: Booking, g: Group)
    requires NoRepeats(bs) && b in bs
    requires forall c :: c in bs && c != b ==> OrderIn(o, c) == OrderIn(o', c)
    ensures Booked(bs, o', g) == Booked(bs, o, g) + Amount(OrderIn(o', b), g) - Amount(OrderIn(o, b), g)
  {
    hide UseOf, Need, Amount;
    var init := bs[..|bs| - 1];
    if bs[|bs| - 1] == b {
      BookedSame(init, o, o', g);
    } else {
      BookedChange(init, o, o', b, g);
    }
  }

  lemma {:induction false} UsedChange(bs: seq<Booking>, o: Orders, o': Orders, b: Booking, arch: Arch)
    requires NoRepeats(bs) && b in bs
    requires forall c :: c in bs && c != b ==> OrderIn(o, c) == OrderIn(o', c)
    ensures UsedBy(bs, o', arch).Plus(UseOf(b.pattern.groups, OrderIn(o, b), arch))
         == UsedBy(bs, o, arch).Plus(UseOf(b.pattern.groups, OrderIn(o', b), arch))
  {
    hide UseOf, Need, Amount;
    var init := bs[..|bs| - 1];
    if bs[|bs| - 1] == b {
      UsedSame(init, o, o', arch);
    } else {
      UsedChange(init, o, o', b, arch);
    }
  }

  lemma BookedAppend(bs: seq<Booking>, o: Orders, b: Booking, g: Group)
    ensures Booked(bs + [b], o, g) == Booked(bs, o, g) + Amount(OrderIn(o, b), g)
  {
    assert (bs + [b])[..|bs|] == bs;
  }

  lemma UsedAppend(bs: seq<Booking>, o: Orders, b: Booking, arch: Arch)
    ensures UsedBy(bs + [b], o, arch) == UsedBy(bs, o, arch).Plus(UseOf(b.pattern.groups, OrderIn(o, b), arch))
  {
    assert (bs + [b])[..|bs|] == bs;
  }

  lemma PlusPairs(a: Use, b: Use, c: Use, d: Use)
    ensures a.Plus(b).Plus(c.Plus(d)) == a.Plus(c).Plus(b.Plus(d))
  {
  }

  /** The use of an order that was cut in two is the sum of the parts' uses. */
  lemma {:induction false} UseOfParts(gs: seq<Group>, o: Order, a: Order, b: Order, arch: Arch)
    requires forall g :: g in gs ==> Amount(o, g) == Amount(a, g) + Amount(b, g)
    ensures UseOf(gs, o, arch) == UseOf(gs, a, arch).Plus(UseOf(gs, b, arch))
  {
    hide UseOf, Need, Amount;
    if gs == [] {
      UseEmpty(gs, o, arch);
      UseEmpty(gs, a, arch);
      UseEmpty(gs, b, arch);
    } else {
      hide Use.Plus;
      var i := |gs| - 1;
      var g := gs[i];
      assert gs[..i + 1] == gs && g in gs;
      UseOfParts(gs[..i], o, a, b, arch);
      UseStep(gs, i, o, arch);
      UseStep(gs, i, a, arch);
      UseStep(gs, i, b, arch);
      NeedAdds(g, arch, Amount(a, g), Amount(b, g));
      PlusPairs(UseOf(gs[..i], a, arch), UseOf(gs[..i], b, arch), Need(g, arch, Amount(a, g)),
        Need(g, arch, Amount(b, g)));
    }
  }

  lemma NeedAdds(g: Group, arch: Arch, m: int, n: int)
    ensures Need(g, arch, m + n) == Need(g, arch, m).Plus(Need(g, arch, n))
  {
  }

  /** The fixed frame of one placement: its groups with their sizes, their limits and the least
      number of members that may be together; the patterns, and those of them whose groups
      can be dealt out evenly; the hosts, and what these have free when no member is booked. */
  datatype Setup = Setup(all: set<Group>, size: map<Group, int>, limit: map<Group, Option<Positive>>,
                         least: map<Group, Positive>, patterns: set<HostPattern>, even: set<HostPattern>,
                         hosts: set<Host>, capacity: map<Host, Use>) {
    ghost predicate Valid() {
      size.Keys == all && limit.Keys == all && least.Keys == all && capacity.Keys == hosts
    }
  }

  /** None, or at least that many. */
  predicate Enough(n: int, least: int) {
    n == 0 || n >= least
  }

  /** Some of each group, or of none. */
  ghost predicate Whole(o: Order) {
    forall g, k :: g in o && k in o && o[g] > 0 ==> o[k] > 0
  }

  /** Everything a placement changes, as one value. */
  datatype State = State(order: Orders, hostOf: map<Booking, Host>, hosting: map<Host, seq<Booking>>,
                         free: map<Host, Use>, count: map<Group, int>)

  ghost predicate OrderOk(s: Setup, b: Booking, o: Order)
    requires s.Valid()
  {
    && b.pattern in s.patterns && b.pattern.Valid() && b.pattern.groups != [] && b.pattern.members <= s.all
    && o.Keys == b.pattern.members
    && (forall g :: g in b.pattern.members ==> 0 <= o[g] && (s.limit[g] != None ==> o[g] <= s.limit[g].value))
    && (forall g :: g in b.pattern.members ==> Enough(o[g], s.least[g]))
    && (b.pattern in s.even ==> Whole(o))
  }

  /** Each half would have enough of each group. */
  ghost predicate Halvable(s: Setup, b: Booking, o: Order)
    requires s.Valid() && OrderOk(s, b, o)
  {
    forall g :: g in b.pattern.members ==> o[g] >= 2 * s.least[g]
  }

  ghost predicate HostOk(s: Setup, h: Host, st: State)
    requires s.Valid() && h in s.hosts
  {
    && h in st.hosting && h in st.free
    && NoRepeats(st.hosting[h])
    && (forall b :: b in st.hosting[h] ==> b in st.hostOf && st.hostOf[b] == h)
    && st.free[h].Plus(UsedBy(st.hosting[h], st.order, h.cpuArch)) == s.capacity[h]
    && st.free[h].NonNegative()
  }

  /** bs are all the bookings there are; every member and every resource is accounted for. */
  ghost predicate Balanced(s: Setup, bs: seq<Booking>, st: State) {
    && s.Valid() && NoRepeats(bs) && st.order.Keys == SetOf(bs)
    && st.hosting.Keys == s.hosts && st.free.Keys == s.hosts && st.count.Keys == s.all
    && OrdersOk(s, st.order)
    && (forall b :: b in st.hostOf ==> Placed(s, bs, st, b))
    && (forall h :: h in s.hosts ==> HostOk(s, h, st))
    && CountsOk(s, bs, st.order, st.count)
  }

  ghost predicate OrdersOk(s: Setup, order: Orders)
    requires s.Valid()
  {
    forall b :: b in order ==> OrderOk(s, b, order[b])
  }

  ghost predicate CountsOk(s: Setup, bs: seq<Booking>, order: Orders, count: map<Group, int>)
    requires s.Valid()
  {
    forall g :: g in s.all ==> g in count && 0 <= count[g] == s.size[g] - Booked(bs, order, g)
  }

  ghost predicate Placed(s: Setup, bs: seq<Booking>, st: State, b: Booking)
    requires s.Valid() && b in st.hostOf
  {
    && b in bs && st.hostOf[b] in s.hosts && st.hostOf[b] in st.hosting
    && b in st.hosting[st.hostOf[b]] && st.hostOf[b].Runs(b.pattern.groups)
  }

  // ------ the steps, and that each keeps the balance

  /** A new booking takes o from the remaining counts. */
  function BookStep(st: State, b: Booking, o: Order): State {
    st.(order := st.order[b := o], count := map g | g in st.count :: st.count[g] - Amount(o, g))
  }

  /** b keeps one half; the other half becomes the booking nb. */
  function SplitStep(st: State, b: Booking, nb: Booking): State
    requires b in st.order && (b in st.hostOf ==> st.hostOf[b] in st.free)
  {
    var gs := b.pattern.groups;
    st.(order := st.order[b := FirstHalf(st.order[b], gs)][nb := OtherHalf(st.order[b], gs)],
        free := if b !in st.hostOf then st.free
                else var h := st.hostOf[b];
                  st.free[h := st.free[h].Plus(UseOf(gs, OtherHalf(st.order[b], gs), h.cpuArch))])
  }

  /** b takes over what c holds. */
  function JoinStep(st: State, b: Booking, c: Booking): State
    requires b in st.order && c in st.order && (b in st.hostOf ==> st.hostOf[b] in st.free)
  {
    var gs := b.pattern.groups;
    st.(order := st.order[b := Joined(st.order[b], st.order[c], gs)][c := Emptied(st.order[c], gs)],
        free := if b in st.hostOf
                then st.free[st.hostOf[b] := st.free[st.hostOf[b]].Minus(UseOf(gs, st.order[c], st.hostOf[b].cpuArch))]
                else st.free)
  }

  function ApplyStep(st: State, h: Host, b: Booking): State
    requires b in st.order && h in st.free && h in st.hosting
  {
    st.(hostOf := st.hostOf[b := h], hosting := st.hosting[h := st.hosting[h] + [b]],
        free := st.free[h := st.free[h].Minus(UseOf(b.pattern.groups, st.order[b], h.cpuArch))])
  }

  lemma BookKeeps(s: Setup, bs: seq<Booking>, st: State, b: Booking, o: Order)
    requires Balanced(s, bs, st) && b !in bs && OrderOk(s, b, o)
    requires forall g :: g in s.all ==> Amount(o, g) <= st.count[g]
    ensures Balanced(s, bs + [b], BookStep(st, b, o))
  {
    hide UseOf, Need, Amount, Booked, UsedBy, OrderOk, CountsOk, HostOk, Placed;
    BookCounts(s, bs, st, b, o);
    BookHosts(s, bs, st, b, o);
  }

  lemma BookCounts(s: Setup, bs: seq<Booking>, st: State, b: Booking, o: Order)
    requires s.Valid() && CountsOk(s, bs, st.order, st.count) && b !in bs
    requires forall g :: g in s.all ==> Amount(o, g) <= st.count[g]
    ensures var st' := BookStep(st, b, o); CountsOk(s, bs + [b], st'.order, st'.count)
  {
    hide Amount, Booked;
    var st' := BookStep(st, b, o);
    forall g | g in s.all
      ensures st'.count[g] == s.size[g] - Booked(bs + [b], st'.order, g)
    {
      BookedAppend(bs, st'.order, b, g);
      BookedSame(bs, st.order, st'.order, g);
    }
  }

  lemma BookHosts(s: Setup, bs: seq<Booking>, st: State, b: Booking, o: Order)
    requires Balanced(s, bs, st) && b !in bs
    ensures var st' := BookStep(st, b, o);
      && (forall h :: h in s.hosts ==> HostOk(s, h, st'))
      && (forall c :: c in st'.hostOf ==> Placed(s, bs + [b], st', c))
  {
    hide UseOf, Amount, Booked, UsedBy, OrdersOk, CountsOk;
    var st' := BookStep(st, b, o);
    forall h | h in s.hosts
      ensures HostOk(s, h, st')
    {
      UsedSame(st.hosting[h], st.order, st'.order, h.cpuArch);
    }
    forall c | c in st'.hostOf
      ensures Placed(s, bs + [b], st', c)
    {
      assert Placed(s, bs, st, c);
    }
  }

  /** One booking's order changed on a host, and what is free there with it. */
  lemma HostAfterChange(s: Setup, h: Host, st: State, st': State, b: Booking)
    requires s.Valid() && h in s.hosts && HostOk(s, h, st) && h in st'.free && h in st'.hosting
    requires st'.hosting == st.hosting && st'.hostOf == st.hostOf && st'.free[h].NonNegative()
    requires forall c :: c in st.hosting[h] && c != b ==> OrderIn(st.order, c) == OrderIn(st'.order, c)
    requires if b in st.hosting[h]
      then st'.free[h].Plus(UseOf(b.pattern.groups, OrderIn(st'.order, b), h.cpuArch))
           == st.free[h].Plus(UseOf(b.pattern.groups, OrderIn(st.order, b), h.cpuArch))
      else st'.free[h] == st.free[h]
    ensures HostOk(s, h, st')
  {
    hide UseOf, UsedBy;
    if b in st.hosting[h] {
      UsedChange(st.hosting[h], st.order, st'.order, b, h.cpuArch);
    } else {
      UsedSame(st.hosting[h], st.order, st'.order, h.cpuArch);
    }
  }

  lemma HalvesAddUp(o: Order, gs: seq<Group>)
    requires o.Keys == SetOf(gs)
    ensures forall g :: Amount(o, g) == Amount(FirstHalf(o, gs), g) + Amount(OtherHalf(o, gs), g)
  {
  }

  lemma HalvesOk(s: Setup, b: Booking, nb: Booking, o: Order)
    requires s.Valid() && OrderOk(s, b, o) && nb.pattern == b.pattern && Halvable(s, b, o)
    ensures OrderOk(s, b, FirstHalf(o, b.pattern.groups)) && OrderOk(s, nb, OtherHalf(o, b.pattern.groups))
  {
  }

  /** A host's list and the bookings' hosts say the same. */
  lemma OnHost(s: Setup, bs: seq<Booking>, st: State, b: Booking, h: Host)
    requires Balanced(s, bs, st) && h in s.hosts
    ensures s.Valid() && HostOk(s, h, st) && h in st.hosting && h in st.free && st.free[h].NonNegative()
    ensures b in bs ==> b in st.order && OrderOk(s, b, st.order[b])
    ensures b in st.hosting[h] <==> b in st.hostOf && st.hostOf[b] == h
    ensures b in st.hostOf ==> st.hostOf[b] in st.free && b in bs
  {
    assert HostOk(s, h, st);
    if b in st.hostOf { assert Placed(s, bs, st, b); }
  }

  lemma PlacedSame(s: Setup, bs: seq<Booking>, bs': seq<Booking>, st: State, st': State)
    requires Balanced(s, bs, st) && st'.hostOf == st.hostOf && st'.hosting == st.hosting
    requires forall b :: b in bs ==> b in bs'
    ensures forall c :: c in st'.hostOf ==> Placed(s, bs', st', c)
  {
    forall c | c in st'.hostOf
      ensures Placed(s, bs', st', c)
    {
      assert Placed(s, bs, st, c);
    }
  }

  lemma SplitHost(s: Setup, bs: seq<Booking>, st: State, b: Booking, nb: Booking, h: Host)
    requires Balanced(s, bs, st) && b in bs && nb !in bs && nb.pattern == b.pattern && h in s.hosts
    requires b in st.hostOf ==> st.hostOf[b] in st.free
    ensures HostOk(s, h, SplitStep(st, b, nb))
  {
    hide UseOf, Need, Amount, Booked, UsedBy, FirstHalf, OtherHalf, Balanced, OrderOk, HostOk, SplitStep;
    OnHost(s, bs, st, b, h);
    OnHost(s, bs, st, nb, h);
    HalvesUse(s, b, nb, st.order[b], h.cpuArch);
    SplitOrders(st, b, nb);
    HostAfterChange(s, h, st, SplitStep(st, b, nb), b);
  }

  lemma SplitOrders(st: State, b: Booking, nb: Booking)
    requires b in st.order && b != nb && (b in st.hostOf ==> st.hostOf[b] in st.free)
    ensures var st', o, gs := SplitStep(st, b, nb), st.order[b], b.pattern.groups;
      && OrderIn(st'.order, b) == FirstHalf(o, gs) && st'.hosting == st.hosting && st'.hostOf == st.hostOf
      && st'.free.Keys == st.free.Keys
      && (forall c :: c != b && c != nb ==> OrderIn(st'.order, c) == OrderIn(st.order, c))
      && forall h :: h in st.free ==>
        st'.free[h] ==
          if b in st.hostOf && h == st.hostOf[b] then st.free[h].Plus(UseOf(gs, OtherHalf(o, gs), h.cpuArch))
          else st.free[h]
  {
    hide UseOf, FirstHalf, OtherHalf;
  }

  /** What the two halves of a booking use adds up to what it used. */
  lemma HalvesUse(s: Setup, b: Booking, nb: Booking, o: Order, arch: Arch)
    requires s.Valid() && OrderOk(s, b, o) && nb.pattern == b.pattern
    ensures var gs := b.pattern.groups;
      && UseOf(gs, o, arch) == UseOf(gs, FirstHalf(o, gs), arch).Plus(UseOf(gs, OtherHalf(o, gs), arch))
      && UseOf(gs, OtherHalf(o, gs), arch).NonNegative()
  {
    hide UseOf, Need, Amount, FirstHalf, OtherHalf, OrderOk;
    var gs := b.pattern.groups;
    HalvesAddUp2(s, b, o);
    UseOfParts(gs, o, FirstHalf(o, gs), OtherHalf(o, gs), arch);
    HalfPositive(s, b, o);
    UseNonNegative(gs, OtherHalf(o, gs), arch);
  }

  lemma HalfPositive(s: Setup, b: Booking, o: Order)
    requires s.Valid() && OrderOk(s, b, o)
    ensures forall g :: g in b.pattern.groups ==> Amount(OtherHalf(o, b.pattern.groups), g) >= 0
  {
  }

  lemma SplitKeeps(s: Setup, bs: seq<Booking>, st: State, b: Booking, nb: Booking)
    requires Balanced(s, bs, st) && b in bs && nb !in bs && nb.pattern == b.pattern
    requires b in st.hostOf ==> st.hostOf[b] in st.free
    requires OrderOk(s, b, st.order[b]) && Halvable(s, b, st.order[b])
    ensures Balanced(s, bs + [nb], SplitStep(st, b, nb))
  {
    hide UseOf, Need, Amount, Booked, UsedBy, FirstHalf, OtherHalf, HostOk, Placed, OrderOk, CountsOk, Halvable;
    var st' := SplitStep(st, b, nb);
    HalvesOk(s, b, nb, st.order[b]);
    SplitCounts(s, bs, st, b, nb);
    forall h | h in s.hosts
      ensures HostOk(s, h, st')
    {
      SplitHost(s, bs, st, b, nb, h);
    }
    PlacedSame(s, bs, bs + [nb], st, st');
  }

  lemma SplitCounts(s: Setup, bs: seq<Booking>, st: State, b: Booking, nb: Booking)
    requires s.Valid() && NoRepeats(bs) && CountsOk(s, bs, st.order, st.count) && b in bs && nb !in bs
    requires b in st.order && OrderOk(s, b, st.order[b]) && (b in st.hostOf ==> st.hostOf[b] in st.free)
    ensures var st' := SplitStep(st, b, nb); CountsOk(s, bs + [nb], st'.order, st'.count)
  {
    hide UseOf, Amount, Booked, FirstHalf, OtherHalf, OrderOk;
    var st' := SplitStep(st, b, nb);
    HalvesAddUp2(s, b, st.order[b]);
    forall g | g in s.all
      ensures Booked(bs + [nb], st'.order, g) == Booked(bs, st.order, g)
    {
      BookedAppend(bs, st'.order, nb, g);
      BookedChange(bs, st.order, st'.order, b, g);
    }
  }

  lemma HalvesAddUp2(s: Setup, b: Booking, o: Order)
    requires s.Valid() && OrderOk(s, b, o)
    ensures var gs := b.pattern.groups;
      forall g :: Amount(o, g) == Amount(FirstHalf(o, gs), g) + Amount(OtherHalf(o, gs), g)
  {
    HalvesAddUp(o, b.pattern.groups);
  }

  lemma {:induction false} UseNonNegative(gs: seq<Group>, o: Order, arch: Arch)
    requires forall g :: g in gs ==> Amount(o, g) >= 0
    ensures UseOf(gs, o, arch).NonNegative()
  {
    if gs != [] {
      UseNonNegative(gs[..|gs| - 1], o, arch);
    }
  }

  lemma JoinedOk(s: Setup, b: Booking, c: Booking, o: Order, p: Order)
    requires s.Valid() && OrderOk(s, b, o) && OrderOk(s, c, p) && c.pattern == b.pattern
    requires forall g :: g in b.pattern.members ==> s.limit[g] != None ==> o[g] + p[g] <= s.limit[g].value
    ensures var gs := b.pattern.groups;
      && OrderOk(s, b, Joined(o, p, gs)) && OrderOk(s, c, Emptied(p, gs))
      && forall g :: Amount(Joined(o, p, gs), g) == Amount(o, g) + Amount(p, g) && Amount(Emptied(p, gs), g) == 0
  {
    JoinedAmounts(o, p, b.pattern.groups);
    EmptiedOk(s, c, p);
    hide Amount, Emptied;
    var j := Joined(o, p, b.pattern.groups);
    assert forall g :: g in j ==> j[g] == o[g] + p[g];
  }

  lemma JoinedAmounts(o: Order, p: Order, gs: seq<Group>)
    requires o.Keys == p.Keys == SetOf(gs)
    ensures Joined(o, p, gs).Keys == o.Keys && forall g :: g in o ==> Joined(o, p, gs)[g] == o[g] + p[g]
    ensures forall g :: Amount(Joined(o, p, gs), g) == Amount(o, g) + Amount(p, g)
  {
  }

  /** c's members fit beside b's, on b's host too. */
  ghost predicate CanJoin(s: Setup, st: State, b: Booking, c: Booking)
    requires s.Valid()
  {
    && b in st.order && c in st.order && b != c && c.pattern == b.pattern && c !in st.hostOf
    && OrderOk(s, b, st.order[b]) && OrderOk(s, c, st.order[c])
    && (forall g :: g in b.pattern.members ==>
          s.limit[g] != None ==> st.order[b][g] + st.order[c][g] <= s.limit[g].value)
    && (b in st.hostOf ==>
          st.hostOf[b] in st.free &&
          st.free[st.hostOf[b]].Minus(UseOf(b.pattern.groups, st.order[c], st.hostOf[b].cpuArch)).NonNegative())
  }

  lemma JoinHost(s: Setup, bs: seq<Booking>, st: State, b: Booking, c: Booking, h: Host)
    requires Balanced(s, bs, st) && b in bs && c in bs && CanJoin(s, st, b, c) && h in s.hosts
    ensures HostOk(s, h, JoinStep(st, b, c))
  {
    hide UseOf, Need, Amount, Booked, UsedBy, Joined, Emptied, Balanced, HostOk, OrderOk;
    var o, p, gs := st.order[b], st.order[c], b.pattern.groups;
    OnHost(s, bs, st, b, h);
    OnHost(s, bs, st, c, h);
    JoinedOk(s, b, c, o, p);
    UseOfParts(gs, Joined(o, p, gs), o, p, h.cpuArch);
    HostAfterChange(s, h, st, JoinStep(st, b, c), b);
  }

  lemma JoinKeeps(s: Setup, bs: seq<Booking>, st: State, b: Booking, c: Booking)
    requires Balanced(s, bs, st) && b in bs && c in bs && CanJoin(s, st, b, c)
    ensures Balanced(s, bs, JoinStep(st, b, c))
  {
    hide UseOf, Need, Amount, Booked, UsedBy, Joined, Emptied, HostOk, Placed, OrderOk, CountsOk;
    var st' := JoinStep(st, b, c);
    JoinedOk(s, b, c, st.order[b], st.order[c]);
    JoinCounts(s, bs, st, b, c);
    forall h | h in s.hosts
      ensures HostOk(s, h, st')
    {
      JoinHost(s, bs, st, b, c, h);
    }
    PlacedSame(s, bs, bs, st, st');
  }

  lemma JoinCounts(s: Setup, bs: seq<Booking>, st: State, b: Booking, c: Booking)
    requires s.Valid() && NoRepeats(bs) && CountsOk(s, bs, st.order, st.count) && b in bs && c in bs
    requires CanJoin(s, st, b, c)
    ensures var st' := JoinStep(st, b, c); CountsOk(s, bs, st'.order, st'.count)
  {
    hide UseOf, Amount, Booked, Joined, Emptied, OrderOk, Use.NonNegative;
    var st' := JoinStep(st, b, c);
    var o, p, gs := st.order[b], st.order[c], b.pattern.groups;
    JoinedOk(s, b, c, o, p);
    var mid := st.order[b := Joined(o, p, gs)];
    forall g | g in s.all
      ensures Booked(bs, st'.order, g) == Booked(bs, st.order, g)
    {
      BookedChange(bs, st.order, mid, b, g);
      BookedChange(bs, mid, st'.order, c, g);
    }
  }

  /** The host has what b needs. */
  ghost predicate CanApply(s: Setup, st: State, h: Host, b: Booking) {
    && b in st.order && b !in st.hostOf && h in s.hosts && h in st.free && h in st.hosting && h.Runs(b.pattern.groups)
    && st.free[h].Minus(UseOf(b.pattern.groups, st.order[b], h.cpuArch)).NonNegative()
  }

  lemma ApplyHost(s: Setup, bs: seq<Booking>, st: State, h: Host, b: Booking, k: Host)
    requires Balanced(s, bs, st) && b in bs && CanApply(s, st, h, b) && k in s.hosts
    ensures HostOk(s, k, ApplyStep(st, h, b))
  {
    hide UseOf, UsedBy, Balanced, HostOk, OrderOk, Use.NonNegative;
    OnHost(s, bs, st, b, k);
    if k == h {
      JoinedHost(s, h, st, ApplyStep(st, h, b), b);
    } else {
      OtherHost(s, k, st, ApplyStep(st, h, b), b);
    }
  }

  lemma JoinedHost(s: Setup, h: Host, st: State, st': State, b: Booking)
    requires s.Valid() && h in s.hosts && HostOk(s, h, st) && b !in st.hosting[h] && st'.hostOf == st.hostOf[b := h]
    requires st'.order == st.order && h in st'.hosting && st'.hosting[h] == st.hosting[h] + [b]
    requires h in st'.free && st'.free[h] == st.free[h].Minus(UseOf(b.pattern.groups, OrderIn(st.order, b), h.cpuArch))
    requires st'.free[h].NonNegative()
    ensures HostOk(s, h, st')
  {
    hide UseOf, UsedBy;
    UsedAppend(st.hosting[h], st.order, b, h.cpuArch);
  }

  lemma ApplyKeeps(s: Setup, bs: seq<Booking>, st: State, h: Host, b: Booking)
    requires Balanced(s, bs, st) && b in bs && CanApply(s, st, h, b)
    ensures Balanced(s, bs, ApplyStep(st, h, b))
  {
    hide UseOf, Need, Amount, Booked, UsedBy, HostOk, OrderOk;
    var st' := ApplyStep(st, h, b);
    forall k | k in s.hosts
      ensures HostOk(s, k, st')
    {
      ApplyHost(s, bs, st, h, b, k);
    }
    forall c | c in st'.hostOf
      ensures Placed(s, bs, st', c)
    {
      if c != b { assert Placed(s, bs, st, c); }
    }
  }

  // ------ taking a booking away

  /** b leaves its host, whose list is then rest, and gives all its members back. */
  function RemoveStep(st: State, b: Booking, rest: seq<Booking>): State
    requires b in st.order && (b in st.hostOf ==> st.hostOf[b] in st.free)
  {
    var o, gs := st.order[b], b.pattern.groups;
    var left := st.(order := st.order[b := Emptied(o, gs)], hostOf := st.hostOf - {b},
                    count := map g | g in st.count :: st.count[g] + Amount(o, g));
    if b !in st.hostOf then left
    else var h := st.hostOf[b];
      left.(hosting := st.hosting[h := rest], free := st.free[h := st.free[h].Plus(UseOf(gs, o, h.cpuArch))])
  }

  /** rest is what b's host has beside b. */
  ghost predicate Beside(st: State, b: Booking, rest: seq<Booking>) {
    b in st.hostOf ==> st.hostOf[b] in st.hosting && IsRemoved(st.hosting[st.hostOf[b]], b, rest)
  }

  lemma PlusOrder(a: Use, b: Use, c: Use)
    ensures a.Plus(b).Plus(c) == a.Plus(c).Plus(b)
  {
  }

  lemma {:induction false} UsedRemoved(bs: seq<Booking>, o: Orders, i: nat, arch: Arch)
    requires i < |bs|
    ensures UsedBy(bs, o, arch)
      == UsedBy(bs[..i] + bs[i + 1..], o, arch).Plus(UseOf(bs[i].pattern.groups, OrderIn(o, bs[i]), arch))
  {
    hide UseOf, UsedBy, OrderIn, Use.Plus;
    var n := |bs| - 1;
    assert bs == bs[..n] + [bs[n]];
    UsedAppend(bs[..n], o, bs[n], arch);
    if i == n {
      assert bs[..i] + bs[i + 1..] == bs[..n];
    } else {
      var init := bs[..n];
      UsedRemoved(init, o, i, arch);
      var rest := init[..i] + init[i + 1..];
      assert bs[..i] + bs[i + 1..] == rest + [bs[n]];
      UsedAppend(rest, o, bs[n], arch);
      PlusOrder(UsedBy(rest, o, arch), UseOf(bs[i].pattern.groups, OrderIn(o, bs[i]), arch),
        UseOf(bs[n].pattern.groups, OrderIn(o, bs[n]), arch));
    }
  }

  lemma RemovedIs<T>(s: seq<T>, x: T, r: seq<T>) returns (i: nat)
    requires IsRemoved(s, x, r)
    ensures i < |s| && s[i] == x && r == s[..i] + s[i + 1..]
    ensures NoRepeats(s) ==> NoRepeats(r) && x !in r
    ensures forall y :: y in s && y != x ==> y in r
    ensures forall y :: y in r ==> y in s
  {
    i :| 0 <= i < |s| && s[i] == x && r == s[..i] + s[i + 1..];
  }

  lemma EmptiedOk(s: Setup, b: Booking, o: Order)
    requires s.Valid() && OrderOk(s, b, o)
    ensures OrderOk(s, b, Emptied(o, b.pattern.groups))
    ensures forall g :: Amount(Emptied(o, b.pattern.groups), g) == 0 && Amount(o, g) >= 0
  {
  }

  lemma RemoveHost(s: Setup, bs: seq<Booking>, st: State, b: Booking, rest: seq<Booking>, h: Host)
    requires Balanced(s, bs, st) && b in bs && Beside(st, b, rest) && h in s.hosts
    requires b in st.hostOf ==> st.hostOf[b] in st.free
    ensures HostOk(s, h, RemoveStep(st, b, rest))
  {
    hide UseOf, UsedBy, Emptied, OrderOk, Balanced, HostOk, Use.NonNegative, IsRemoved;
    OnHost(s, bs, st, b, h);
    if b in st.hostOf && st.hostOf[b] == h {
      UseNonNegative2(s, b, st.order[b], h.cpuArch);
      LeftHost(s, h, st, RemoveStep(st, b, rest), b, rest);
    } else {
      OtherHost(s, h, st, RemoveStep(st, b, rest), b);
    }
  }

  lemma LeftHost(s: Setup, h: Host, st: State, st': State, b: Booking, rest: seq<Booking>)
    requires s.Valid() && h in s.hosts && HostOk(s, h, st) && IsRemoved(st.hosting[h], b, rest)
    requires st'.hostOf == st.hostOf - {b}
    requires h in st'.hosting && st'.hosting[h] == rest
    requires forall c :: c != b ==> OrderIn(st'.order, c) == OrderIn(st.order, c)
    requires h in st'.free && st'.free[h] == st.free[h].Plus(UseOf(b.pattern.groups, OrderIn(st.order, b), h.cpuArch))
    requires UseOf(b.pattern.groups, OrderIn(st.order, b), h.cpuArch).NonNegative()
    ensures HostOk(s, h, st')
  {
    hide UseOf, UsedBy;
    var i := RemovedIs(st.hosting[h], b, rest);
    UsedRemoved(st.hosting[h], st.order, i, h.cpuArch);
    UsedSame(rest, st.order, st'.order, h.cpuArch);
  }

  lemma OtherHost(s: Setup, h: Host, st: State, st': State, b: Booking)
    requires s.Valid() && h in s.hosts && HostOk(s, h, st) && b !in st.hosting[h]
    requires h in st'.hosting && st'.hosting[h] == st.hosting[h] && h in st'.free && st'.free[h] == st.free[h]
    requires forall c :: c != b ==> OrderIn(st'.order, c) == OrderIn(st.order, c)
    requires forall c :: c != b && c in st.hostOf ==> c in st'.hostOf && st'.hostOf[c] == st.hostOf[c]
    ensures HostOk(s, h, st')
  {
    hide UseOf, UsedBy;
    UsedSame(st.hosting[h], st.order, st'.order, h.cpuArch);
  }

  lemma UseNonNegative2(s: Setup, b: Booking, o: Order, arch: Arch)
    requires s.Valid() && OrderOk(s, b, o)
    ensures UseOf(b.pattern.groups, o, arch).NonNegative()
  {
    EmptiedOk(s, b, o);
    UseNonNegative(b.pattern.groups, o, arch);
  }

  lemma RemoveKeeps(s: Setup, bs: seq<Booking>, st: State, b: Booking, rest: seq<Booking>)
    requires Balanced(s, bs, st) && b in bs && Beside(st, b, rest)
    requires b in st.hostOf ==> st.hostOf[b] in st.free
    ensures Balanced(s, bs, RemoveStep(st, b, rest))
  {
    hide UseOf, Need, Amount, Booked, UsedBy, Emptied, HostOk, OrderOk, CountsOk, Placed, IsRemoved;
    var st' := RemoveStep(st, b, rest);
    EmptiedOk(s, b, st.order[b]);
    RemoveCounts(s, bs, st, b, rest);
    forall h | h in s.hosts
      ensures HostOk(s, h, st')
    {
      RemoveHost(s, bs, st, b, rest, h);
    }
    forall c | c in st'.hostOf
      ensures Placed(s, bs, st', c)
    {
      PlacedBeside(s, bs, st, b, rest, c);
    }
  }

  lemma RemoveCounts(s: Setup, bs: seq<Booking>, st: State, b: Booking, rest: seq<Booking>)
    requires s.Valid() && NoRepeats(bs) && CountsOk(s, bs, st.order, st.count) && b in bs && b in st.order
    requires OrderOk(s, b, st.order[b]) && (b in st.hostOf ==> st.hostOf[b] in st.free)
    ensures var st' := RemoveStep(st, b, rest); CountsOk(s, bs, st'.order, st'.count)
  {
    hide UseOf, Amount, Booked, Emptied, OrderOk;
    var st' := RemoveStep(st, b, rest);
    EmptiedOk(s, b, st.order[b]);
    forall g | g in s.all
      ensures 0 <= st'.count[g] == s.size[g] - Booked(bs, st'.order, g)
    {
      BookedChange(bs, st.order, st'.order, b, g);
    }
  }

  lemma PlacedBeside(s: Setup, bs: seq<Booking>, st: State, b: Booking, rest: seq<Booking>, c: Booking)
    requires Balanced(s, bs, st) && b in bs && Beside(st, b, rest) && c in st.hostOf && c != b
    requires b in st.hostOf ==> st.hostOf[b] in st.free
    ensures Placed(s, bs, RemoveStep(st, b, rest), c)
  {
    hide UseOf, Amount, Emptied, HostOk, OrderOk;
    assert Placed(s, bs, st, c);
    if b in st.hostOf {
      var i := RemovedIs(st.hosting[st.hostOf[b]], b, rest);
    }
  }

  lemma {:induction false} NoneBookedAnywhere(bs: seq<Booking>, o: Orders, g: Group)
    requires forall b :: b in bs ==> Amount(OrderIn(o, b), g) == 0
    ensures Booked(bs, o, g) == 0
  {
    if bs != [] {
      NoneBookedAnywhere(bs[..|bs| - 1], o, g);
    }
  }

  /** Nothing is booked: counts and hosts are as at the start. */
  ghost predicate AllReset(s: Setup, st: State)
    requires s.Valid()
  {
    && st.hostOf == map[] && st.count == s.size
    && forall h :: h in s.hosts ==>
         h in st.hosting && st.hosting[h] == [] && h in st.free && st.free[h] == s.capacity[h]
  }

  /** Without members in bookings and bookings on hosts, everything is as at the start. */
  lemma ResetIsStart(s: Setup, bs: seq<Booking>, st: State)
    requires Balanced(s, bs, st)
    requires forall h :: h in s.hosts ==> st.hosting[h] == []
    requires forall b, g :: b in bs && g in st.order[b] ==> st.order[b][g] == 0
    ensures AllReset(s, st)
  {
    hide OrderOk, Placed;
    forall h | h in s.hosts
      ensures st.free[h] == s.capacity[h]
    {
      assert HostOk(s, h, st);
    }
    forall g | g in s.all
      ensures st.count[g] == s.size[g]
    {
      NoneBookedAnywhere(bs, st.order, g);
    }
    HostedIn(s, bs, st);
    assert st.hostOf == map[];
  }

  lemma HostedIn(s: Setup, bs: seq<Booking>, st: State)
    requires Balanced(s, bs, st)
    ensures forall b :: b in st.hostOf ==> b in bs && st.hostOf[b] in s.hosts && b in st.hosting[st.hostOf[b]]
  {
    hide HostOk, OrderOk, CountsOk;
    forall b | b in st.hostOf
      ensures b in bs && st.hostOf[b] in s.hosts && b in st.hosting[st.hostOf[b]]
    {
      assert Placed(s, bs, st, b);
    }
  }

  /** A split taken back at once leaves an empty booking and nothing else changed. */
  lemma SplitThenJoin(st: State, b: Booking, nb: Booking)
    requires b in st.order && nb != b && st.order[b].Keys == SetOf(b.pattern.groups)
    requires b in st.hostOf ==> st.hostOf[b] in st.free
    ensures b in SplitStep(st, b, nb).order && nb in SplitStep(st, b, nb).order
    ensures JoinStep(SplitStep(st, b, nb), b, nb) == st.(order := st.order[nb := Zeros(b.pattern.groups)])
  {
    hide UseOf, FirstHalf, OtherHalf, Joined, Emptied, Zeros;
    var o, gs := st.order[b], b.pattern.groups;
    var st1 := SplitStep(st, b, nb);
    HalvesCancel(o, gs);
    SplitOrders(st, b, nb);
    assert st1.order == st.order[b := FirstHalf(o, gs)][nb := OtherHalf(o, gs)];
    var st2 := JoinStep(st1, b, nb);
    assert st2.order == st.order[nb := Zeros(gs)];
    assert st2.free == st.free;
  }

  lemma HalvesCancel(o: Order, gs: seq<Group>)
    requires o.Keys == SetOf(gs)
    ensures Joined(FirstHalf(o, gs), OtherHalf(o, gs), gs) == o && Emptied(OtherHalf(o, gs), gs) == Zeros(gs)
  {
    SplitThenRevert(o, gs);
  }

  /** A booking taken away at once leaves an empty booking and nothing else changed. */
  lemma BookThenRemove(st: State, b: Booking, o: Order)
    requires b !in st.hostOf && o.Keys == SetOf(b.pattern.groups)
    ensures RemoveStep(BookStep(st, b, o), b, []) == st.(order := st.order[b := Zeros(b.pattern.groups)])
  {
    hide Amount;
    var st1 := BookStep(st, b, o);
    var st2 := RemoveStep(st1, b, []);
    assert Emptied(o, b.pattern.groups) == Zeros(b.pattern.groups);
    assert st2.order == st.order[b := Zeros(b.pattern.groups)];
    assert st2.count == st.count;
    assert st2.hostOf == st.hostOf;
  }

  // ------ bookings that lack a group

  ghost predicate Full(o: Order) {
    forall g :: g in o ==> o[g] > 0
  }

  /** Bookings that have some of their pattern's groups and lack others keep what they have. */
  ghost predicate LackersKept(st: State, st': State) {
    forall b :: b in st.order && !Whole(st.order[b]) ==> b in st'.order && st'.order[b] == st.order[b]
  }

  lemma LackersSelf(st: State)
    ensures LackersKept(st, st)
  {
  }

  lemma LackersThrough(st1: State, st2: State, st3: State)
    requires LackersKept(st1, st2) && LackersKept(st2, st3)
    ensures LackersKept(st1, st3)
  {
  }

  /** One that is halved lacks nothing. */
  lemma LackersSplit(st: State, b: Booking, nb: Booking)
    requires b in st.order && Full(st.order[b]) && nb !in st.order && (b in st.hostOf ==> st.hostOf[b] in st.free)
    ensures LackersKept(st, SplitStep(st, b, nb))
  {
    hide UseOf, FirstHalf, OtherHalf;
  }

  lemma LackersJoin(st: State, b: Booking, c: Booking)
    requires b in st.order && c in st.order && Full(st.order[b]) && Full(st.order[c])
    requires b in st.hostOf ==> st.hostOf[b] in st.free
    ensures LackersKept(st, JoinStep(st, b, c))
  {
    hide UseOf, Joined, Emptied;
  }

  /** Some booking of this bound class has some of its groups and lacks others, and one of them
      has a limit. */
  ghost predicate Lacks(s: Setup, members: set<Group>, bs: seq<Booking>, st: State) {
    && (exists g :: g in members && g in s.limit && s.limit[g] != None)
    && exists b :: b in bs && Lacker(members, st, b)
  }

  ghost predicate Lacker(members: set<Group>, st: State, b: Booking) {
    b in st.order && b.pattern.members == members && !Whole(st.order[b])
  }

  lemma StillLacks(s: Setup, members: set<Group>, bs: seq<Booking>, st: State, bs': seq<Booking>, st': State)
    requires Lacks(s, members, bs, st) && LackersKept(st, st') && forall b :: b in bs ==> b in bs'
    ensures Lacks(s, members, bs', st')
  {
    hide Whole;
    var b :| b in bs && Lacker(members, st, b);
    assert Lacker(members, st', b);
  }

  // ------ what any bookings hold together

  /** Together they hold none of a group, or enough. */
  lemma {:induction false} BookedEnough(s: Setup, bs: seq<Booking>, o: Orders, g: Group)
    requires s.Valid() && g in s.all && forall b :: b in bs ==> OrderOk(s, b, OrderIn(o, b))
    ensures Enough(Booked(bs, o, g), s.least[g]) && Booked(bs, o, g) >= 0
  {
    hide OrderIn;
    if bs != [] {
      var b := bs[|bs| - 1];
      assert b in bs;
      BookedEnough(s, bs[..|bs| - 1], o, g);
    }
  }

  /** If each has both groups or neither, in a pattern that can be dealt out evenly, then
      together they hold members of both or of neither. */
  lemma {:induction false} BookedTogether(s: Setup, bs: seq<Booking>, o: Orders, g: Group, k: Group)
    requires s.Valid() && g in s.all && k in s.all && forall b :: b in bs ==> OrderOk(s, b, OrderIn(o, b))
    requires forall b :: b in bs ==> (g in b.pattern.members <==> k in b.pattern.members)
    requires forall b :: b in bs && g in b.pattern.members ==> b.pattern in s.even
    ensures Booked(bs, o, g) > 0 <==> Booked(bs, o, k) > 0
  {
    hide OrderIn;
    if bs != [] {
      var init, b := bs[..|bs| - 1], bs[|bs| - 1];
      assert b in bs;
      BookedTogether(s, init, o, g, k);
      BookedEnough(s, init, o, g);
      BookedEnough(s, init, o, k);
    }
  }
}
