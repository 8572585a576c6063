/** Spreading placed bookings over the hosts that are still unused: halves of a booking are
    moved there, or everything is put back. */
module Spreading {
  import opened Arith
  import opened Groups
  import opened Bookings
  import opened Ledger
  import opened Steps
  import opened Dealing
  import opened Placement

  // ------ halving an order again and again

  /** What is left of the order when it was halved k times. */
  function HalvedTimes(o: Order, gs: seq<Group>, k: nat): Order {
    if k == 0 then o else FirstHalf(HalvedTimes(o, gs, k - 1), gs)
  }

  /** The half that comes off then. */
  function NextHalf(o: Order, gs: seq<Group>, k: nat): Order {
    OtherHalf(HalvedTimes(o, gs, k), gs)
  }

  /** After k halvings, one in 2^k is left, and half of that comes off next, both rounded the way
      that the booking keeps the smaller half. */
  lemma {:induction false} HalvedAmount(o: Order, gs: seq<Group>, k: nat, g: Group)
    requires o.Keys == SetOf(gs) && g in o && o[g] >= 0
    ensures HalvedTimes(o, gs, k).Keys == o.Keys && HalvedTimes(o, gs, k)[g] == o[g] / Power2(k)
    ensures g in NextHalf(o, gs, k) && NextHalf(o, gs, k)[g] == (o[g] / Power2(k) + 1) / 2
  {
    if k > 0 {
      HalvedAmount(o, gs, k - 1, g);
      HalfOfQuotient(o[g], Power2(k - 1));
    }
  }

  lemma HalfOfQuotient(x: nat, p: nat)
    requires p > 0
    ensures x / p / 2 == x / (2 * p)
  {
    var q := x / p;
    var r := q % 2 * p + x % p;
    assert x == q / 2 * (2 * p) + r;
    Division(x, q / 2, r, 2 * p);
  }

  ghost predicate TwiceEnough(s: Setup, p: HostPattern, o: Order) {
    forall g :: g in p.members ==> g in s.least && g in o && o[g] >= 2 * s.least[g]
  }

  /** It may be halved once more after k times. */
  ghost predicate AllowsHalf(s: Setup, p: HostPattern, o: Order, k: nat) {
    forall j: nat :: j <= k ==> TwiceEnough(s, p, HalvedTimes(o, p.groups, j))
  }

  /** An empty host has what an order needs. */
  ghost predicate HalfFits(st: State, h: Host, p: HostPattern, o: Order) {
    h in st.free && h.Runs(p.groups) && st.free[h].Minus(UseOf(p.groups, o, h.cpuArch)).NonNegative()
  }

  /** None of these hosts takes the half that comes off after k times. */
  ghost predicate NoneTakes(st: State, hosts: set<Host>, p: HostPattern, o: Order, k: nat) {
    forall h :: h in hosts ==> !HalfFits(st, h, p, NextHalf(o, p.groups, k))
  }

  /** None takes any half. */
  ghost predicate NoHalfFits(s: Setup, st: State, hosts: set<Host>, p: HostPattern, o: Order) {
    forall k: nat :: AllowsHalf(s, p, o, k) ==> NoneTakes(st, hosts, p, o, k)
  }

  /** Halves c of b, taken from it one after another since b held o0 and its host had free0;
      together they are still what b was. */
  ghost predicate Halves(b: Booking, sl: seq<Booking>, bs: seq<Booking>, st: State, o0: Order, free0: Use) {
    && NoRepeats(sl) && b in bs && b in st.order && b in st.hostOf && st.hostOf[b] in st.free && free0.NonNegative()
    && o0.Keys == b.pattern.members == st.order[b].Keys
    && (forall c :: c in sl ==> c != b && c in bs && c in st.order && c !in st.hostOf && c.pattern == b.pattern)
    && (forall g :: g in o0 ==> st.order[b][g] + Booked(sl, st.order, g) == o0[g])
    && st.free[st.hostOf[b]] == free0.Plus(UsedBy(sl, st.order, st.hostOf[b].cpuArch))
  }

  lemma HalvesSplit(b: Booking, nb: Booking, sl: seq<Booking>, bs: seq<Booking>, st: State, o0: Order, free0: Use)
    requires Halves(b, sl, bs, st, o0, free0) && nb !in bs && nb != b && nb !in st.hostOf && nb.pattern == b.pattern
    ensures Halves(b, sl + [nb], bs + [nb], SplitStep(st, b, nb), o0, free0)
  {
    hide UseOf, Need;
    var st' := SplitStep(st, b, nb);
    var arch := st.hostOf[b].cpuArch;
    forall g | g in o0
      ensures st'.order[b][g] + Booked(sl + [nb], st'.order, g) == o0[g]
    {
      BookedAppend(sl, st'.order, nb, g);
      BookedSame(sl, st.order, st'.order, g);
    }
    UsedAppend(sl, st'.order, nb, arch);
    UsedSame(sl, st.order, st'.order, arch);
  }

  lemma {:induction false} BookedFirst(sl: seq<Booking>, o: Orders, g: Group)
    requires sl != []
    ensures Booked(sl, o, g) == Amount(OrderIn(o, sl[0]), g) + Booked(sl[1..], o, g)
  {
    var init := sl[..|sl| - 1];
    if init != [] {
      BookedFirst(init, o, g);
      assert init[1..] == sl[1..][..|sl| - 2];
    }
  }

  lemma {:induction false} UsedFirst(sl: seq<Booking>, o: Orders, arch: Arch)
    requires sl != []
    ensures UsedBy(sl, o, arch) == UseOf(sl[0].pattern.groups, OrderIn(o, sl[0]), arch).Plus(UsedBy(sl[1..], o, arch))
  {
    hide UseOf;
    var init := sl[..|sl| - 1];
    if init != [] {
      UsedFirst(init, o, arch);
      assert init[1..] == sl[1..][..|sl| - 2];
    }
  }

  lemma {:induction false} TotalsNonNegative(sl: seq<Booking>, o: Orders)
    requires forall c :: c in sl ==> forall g :: g in OrderIn(o, c) ==> OrderIn(o, c)[g] >= 0
    ensures forall g: Group :: Booked(sl, o, g) >= 0
    ensures forall arch :: UsedBy(sl, o, arch).NonNegative()
  {
    hide UseOf;
    if sl != [] {
      TotalsNonNegative(sl[..|sl| - 1], o);
      var b := sl[|sl| - 1];
      forall arch
        ensures UseOf(b.pattern.groups, OrderIn(o, b), arch).NonNegative()
      {
        UseNonNegative(b.pattern.groups, OrderIn(o, b), arch);
      }
    }
  }

  /** What the first half adds to the rest. */
  lemma HalvesTotals(s: Setup, b: Booking, sl: seq<Booking>, bs: seq<Booking>, st: State, o0: Order, free0: Use)
    requires Balanced(s, bs, st) && Halves(b, sl, bs, st, o0, free0) && sl != []
    ensures s.Valid() && OrderOk(s, b, st.order[b]) && OrderOk(s, sl[0], st.order[sl[0]])
    ensures forall g :: g in o0 ==>
      g in st.order[sl[0]] && st.order[b][g] + st.order[sl[0]][g] + Booked(sl[1..], st.order, g) == o0[g]
    ensures forall g :: g in o0 ==> Booked(sl[1..], st.order, g) >= 0
    ensures var arch := st.hostOf[b].cpuArch;
      UsedBy(sl, st.order, arch)
        == UseOf(b.pattern.groups, st.order[sl[0]], arch).Plus(UsedBy(sl[1..], st.order, arch)) &&
      UsedBy(sl[1..], st.order, arch).NonNegative()
  {
    hide UseOf, UsedBy, Booked, Balanced, OrderOk;
    OrdersPositive(s, bs, st, sl);
    assert sl[0] in sl;
    TotalsNonNegative(sl[1..], st.order);
    UsedFirst(sl, st.order, st.hostOf[b].cpuArch);
    HalvesSum(s, b, sl, bs, st, o0, free0);
  }

  lemma HalvesSum(s: Setup, b: Booking, sl: seq<Booking>, bs: seq<Booking>, st: State, o0: Order, free0: Use)
    requires s.Valid() && Halves(b, sl, bs, st, o0, free0) && sl != [] && OrderOk(s, sl[0], st.order[sl[0]])
    ensures forall g :: g in o0 ==>
      g in st.order[sl[0]] && st.order[b][g] + st.order[sl[0]][g] + Booked(sl[1..], st.order, g) == o0[g]
  {
    hide UsedBy, Booked;
    forall g | g in o0
      ensures g in st.order[sl[0]] && st.order[b][g] + st.order[sl[0]][g] + Booked(sl[1..], st.order, g) == o0[g]
    {
      BookedFirst(sl, st.order, g);
    }
  }

  /** The first half may go back, and what is left are still halves. */
  lemma HalvesJoin(s: Setup, b: Booking, sl: seq<Booking>, bs: seq<Booking>, st: State, o0: Order, free0: Use)
    requires Balanced(s, bs, st) && Halves(b, sl, bs, st, o0, free0) && sl != [] && OrderOk(s, b, o0)
    ensures CanJoin(s, st, b, sl[0])
    ensures Halves(b, sl[1..], bs, JoinStep(st, b, sl[0]), o0, free0)
  {
    hide UseOf, Need, Booked, UsedBy, Balanced;
    HalvesTotals(s, b, sl, bs, st, o0, free0);
    HalvesLeft(s, b, sl, bs, st, o0, free0);
  }

  lemma HalvesLeft(s: Setup, b: Booking, sl: seq<Booking>, bs: seq<Booking>, st: State, o0: Order, free0: Use)
    requires Balanced(s, bs, st) && Halves(b, sl, bs, st, o0, free0) && sl != []
    ensures Halves(b, sl[1..], bs, JoinStep(st, b, sl[0]), o0, free0)
  {
    hide UseOf, Booked, UsedBy, Balanced, OrderOk;
    HalvesTotals(s, b, sl, bs, st, o0, free0);
    var c, st', arch := sl[0], JoinStep(st, b, sl[0]), st.hostOf[b].cpuArch;
    assert c in sl && forall d :: d in sl[1..] ==> d in sl && d != c;
    UsedSame(sl[1..], st.order, st'.order, arch);
    KeysOfOrder(s, b, st.order[b]);
    KeysOfOrder(s, c, st.order[c]);
    JoinedAmounts(st.order[b], st.order[c], b.pattern.groups);
    hide Joined, Emptied;
    forall g | g in o0
      ensures st'.order[b][g] + Booked(sl[1..], st'.order, g) == o0[g]
    {
      BookedSame(sl[1..], st.order, st'.order, g);
    }
  }

  lemma KeysOfOrder(s: Setup, b: Booking, o: Order)
    requires s.Valid() && OrderOk(s, b, o)
    ensures o.Keys == SetOf(b.pattern.groups)
  {
  }

  lemma OrdersPositive(s: Setup, bs: seq<Booking>, st: State, sl: seq<Booking>)
    requires Balanced(s, bs, st) && forall c :: c in sl ==> c in bs
    ensures s.Valid()
    ensures forall c :: c in sl ==> OrderOk(s, c, OrderIn(st.order, c)) && forall g :: g in OrderIn(st.order, c) ==>
      OrderIn(st.order, c)[g] >= 0
    ensures forall b :: b in bs ==> OrderOk(s, b, OrderIn(st.order, b))
  {
  }

  /** Every half has members of each group. */
  ghost predicate FullHalves(b: Booking, sl: seq<Booking>, st: State) {
    && (sl != [] ==> b in st.order && Full(st.order[b]))
    && forall c :: c in sl ==> c in st.order && Full(st.order[c])
  }

  lemma FullJoin(s: Setup, b: Booking, sl: seq<Booking>, bs: seq<Booking>, st: State, o0: Order, free0: Use)
    requires s.Valid() && Halves(b, sl, bs, st, o0, free0) && FullHalves(b, sl, st) && sl != []
    requires CanJoin(s, st, b, sl[0])
    ensures LackersKept(st, JoinStep(st, b, sl[0])) && FullHalves(b, sl[1..], JoinStep(st, b, sl[0]))
  {
    hide UseOf, UsedBy, Booked, LackersKept, Amount, Joined, Emptied;
    var c, st' := sl[0], JoinStep(st, b, sl[0]);
    assert c in sl && forall d :: d in sl[1..] ==> d in sl && d != c && d != b;
    LackersJoin(st, b, c);
    KeysOfOrder(s, b, st.order[b]);
    KeysOfOrder(s, c, st.order[c]);
    JoinedAmounts(st.order[b], st.order[c], b.pattern.groups);
  }

  /** A booking that was halved, and its half, have members of each group. */
  lemma FullSplit(b: Booking, nb: Booking, sl: seq<Booking>, st: State)
    requires FullHalves(b, sl, st) && b in st.order && nb !in st.order && b !in sl
    requires st.order[b].Keys == SetOf(b.pattern.groups) && forall g :: g in st.order[b] ==> st.order[b][g] >= 2
    requires b in st.hostOf ==> st.hostOf[b] in st.free
    ensures LackersKept(st, SplitStep(st, b, nb)) && FullHalves(b, sl + [nb], SplitStep(st, b, nb))
  {
    hide UseOf;
    LackersSplit(st, b, nb);
  }

  /** Puts all halves back: the booking and its host are as they were. */
  method RevertAll(ghost s: Setup, b: Booking, splittedList: seq<Booking>, ghost bs: seq<Booking>, ghost st: State,
                   ghost o0: Order, ghost free0: Use, ghost others: seq<Booking>, ghost pg: seq<set<nat>>)
    returns (ghost st': State)
    requires InBalance(s, bs, st) && Halves(b, splittedList, bs, st, o0, free0) && s.Valid() && OrderOk(s, b, o0)
    requires NothingLost(bs, st, splittedList + others) && HostsCompatible(s, pg, st)
    requires (forall c :: c in splittedList ==> c !in others) && FullHalves(b, splittedList, st)
    modifies b`order, splittedList`order, b.pattern.members`count, s.hosts`freeDisc, s.hosts`availableRAM
    modifies s.hosts`bookedMembers
    ensures InBalance(s, bs, st') && Halves(b, [], bs, st', o0, free0)
    ensures NothingLost(bs, st', others) && HostsCompatible(s, pg, st') && OnlyReverted(st, st', b, splittedList)
    ensures LackersKept(st, st')
  {
    hide InBalance, Halves, NothingLost, HostsCompatible, OrderOk, JoinStep, OnlyReverted, FullHalves,
      LackersKept, CanJoin;
    st' := st;
    LackersSelf(st);
    var rest: seq<Booking> := splittedList;
    OnlyRevertedSelf(st, b, splittedList);
    while rest != []
      invariant InBalance(s, bs, st') && s.Valid() && OrderOk(s, b, o0) && (forall c :: c in rest ==> c in splittedList)
      invariant Halves(b, rest, bs, st', o0, free0) && HostsCompatible(s, pg, st')
      invariant NothingLost(bs, st', rest + others) && OnlyReverted(st, st', b, splittedList)
      invariant FullHalves(b, rest, st') && LackersKept(st, st')
      decreases |rest|
    {
      var c := rest[0];
      assert c in rest;
      RevertReady(s, b, rest, bs, st', o0, free0);
      ghost var st1 := st';
      AfterRevert(s, pg, b, rest, bs, st1, others);
      FullJoin(s, b, rest, bs, st1, o0, free0);
      st' := Revert(s, b, c, bs, st');
      OnlyRevertedMore(st, st1, b, c, splittedList);
      LackersThrough(st, st1, st');
      rest := rest[1..];
    }
    assert rest + others == others;
  }

  /** Between st and st' only b, the listed halves and b's host's resources changed. */
  ghost predicate OnlyReverted(st: State, st': State, b: Booking, sl: seq<Booking>) {
    && st'.hostOf == st.hostOf && st'.hosting == st.hosting && st'.count == st.count
    && st'.order.Keys == st.order.Keys && st'.free.Keys == st.free.Keys
    && (forall c :: c in st.order && c != b && c !in sl ==> st'.order[c] == st.order[c])
    && (forall h :: h in st.free && !(b in st.hostOf && st.hostOf[b] == h) ==> st'.free[h] == st.free[h])
  }

  lemma OnlyRevertedSelf(st: State, b: Booking, sl: seq<Booking>)
    ensures OnlyReverted(st, st, b, sl)
  {
  }

  lemma OnlyRevertedMore(st: State, st1: State, b: Booking, c: Booking, sl: seq<Booking>)
    requires OnlyReverted(st, st1, b, sl) && c in sl && b in st1.order && c in st1.order
    requires b in st1.hostOf && st1.hostOf[b] in st1.free
    ensures OnlyReverted(st, JoinStep(st1, b, c), b, sl)
  {
    hide UseOf, Joined, Emptied;
  }

  lemma RevertReady(s: Setup, b: Booking, sl: seq<Booking>, bs: seq<Booking>, st: State, o0: Order, free0: Use)
    requires InBalance(s, bs, st) && Halves(b, sl, bs, st, o0, free0) && sl != [] && s.Valid() && OrderOk(s, b, o0)
    ensures b in bs && sl[0] in bs && CanJoin(s, st, b, sl[0]) && b.host != null && b.host in s.hosts
    ensures b in st.order && sl[0] in st.order && b in st.hostOf && st.hostOf[b] in st.free
    ensures Halves(b, sl[1..], bs, JoinStep(st, b, sl[0]), o0, free0)
    ensures sl[0] in sl && b.pattern.members <= s.all
  {
    hide Halves, CanJoin, Balanced;
    BookingOf(b, sl, bs, st, o0, free0);
    BookingInBalance(s, bs, st, b);
    HalvesJoin(s, b, sl, bs, st, o0, free0);
  }

  lemma BookingOf(b: Booking, sl: seq<Booking>, bs: seq<Booking>, st: State, o0: Order, free0: Use)
    requires Halves(b, sl, bs, st, o0, free0)
    ensures b !in sl && b in st.order && st.order[b].Keys == b.pattern.members
    ensures b in bs && b in st.order && b in st.hostOf && st.hostOf[b] in st.free
    ensures forall c :: c in sl ==> c in bs && c in st.order && c !in st.hostOf && c.pattern == b.pattern && c != b
  {
  }

  lemma AfterRevert(s: Setup, pg: seq<set<nat>>, b: Booking, sl: seq<Booking>, bs: seq<Booking>,
                    st: State, others: seq<Booking>)
    requires s.Valid() && sl != [] && sl[0] in bs && CanJoin(s, st, b, sl[0]) && b in st.hostOf
    requires st.hostOf[b] in st.free
    requires NothingLost(bs, st, sl + others) && HostsCompatible(s, pg, st)
    ensures b in st.order && sl[0] in st.order
    ensures NothingLost(bs, JoinStep(st, b, sl[0]), sl[1..] + others) && HostsCompatible(s, pg, JoinStep(st, b, sl[0]))
  {
    hide UseOf, FitsBeside;
    var st' := JoinStep(st, b, sl[0]);
    forall c | c in bs && c !in st'.hostOf && c !in sl[1..] + others
      ensures c in st'.order && forall g :: g in st'.order[c] ==> st'.order[c][g] == 0
    {
      if c != sl[0] {
        assert c !in sl + others;
      }
    }
  }

  /** A list of bookings that are each on some host. */
  ghost predicate AllPlaced(list: seq<Booking>, bs: seq<Booking>, st: State) {
    forall b :: b in list ==> b in bs && b in st.hostOf
  }

  /** The hosts without bookings. */
  ghost predicate Unused(unusedHosts: set<Host>, st: State) {
    forall h :: h in unusedHosts ==> h in st.hosting && st.hosting[h] == []
  }

  /** Keeping the last half out: the others are the halves of what is left. */
  lemma HalvesWithout(s: Setup, b: Booking, sl: seq<Booking>, nb: Booking, bs: seq<Booking>, st: State,
                      o0: Order, free0: Use)
    returns (o1: Order, free1: Use)
    requires Balanced(s, bs, st) && Halves(b, sl + [nb], bs, st, o0, free0) && OrderOk(s, b, o0)
    ensures Halves(b, sl, bs, st, o1, free1) && OrderOk(s, b, o1)
    ensures nb in bs && nb in st.order && nb !in st.hostOf && nb != b && nb !in sl
    ensures o1.Keys == o0.Keys && forall g :: g in o0 ==> o1[g] + Amount(st.order[nb], g) == o0[g]
  {
    hide UseOf, Need, HostOk, Placed, UsedBy, Booked, Amount, NoRepeats, Balanced, OrderOk;
    HalvesFewer(b, sl, nb, bs, st, o0, free0);
    OrdersPositive(s, bs, st, sl + [nb]);
    HalfAmounts(s, nb, st.order[nb]);
    TotalsNonNegative(sl, st.order);
    o1 := map g | g in o0 :: o0[g] - Amount(st.order[nb], g);
    free1 := free0.Plus(UseOf(nb.pattern.groups, st.order[nb], st.hostOf[b].cpuArch));
    UseNonNegative(nb.pattern.groups, st.order[nb], st.hostOf[b].cpuArch);
    UsedAppend(sl, st.order, nb, st.hostOf[b].cpuArch);
    PartsLeft(s, b, sl, nb, bs, st, o0, o1);
    SamePattern(b, sl, nb, bs, st, o0, free0);
    LimitOk(s, b, sl, st, o0, o1);
  }

  lemma SamePattern(b: Booking, sl: seq<Booking>, nb: Booking, bs: seq<Booking>, st: State, o0: Order, free0: Use)
    requires Halves(b, sl + [nb], bs, st, o0, free0)
    ensures forall c :: c in sl ==> c.pattern == b.pattern && c in sl + [nb]
  {
    assert forall c :: c in sl ==> c in sl + [nb];
  }

  lemma HalfAmounts(s: Setup, b: Booking, o: Order)
    requires s.Valid() && OrderOk(s, b, o)
    ensures forall g :: Amount(o, g) >= 0
  {
  }

  lemma HalvesFewer(b: Booking, sl: seq<Booking>, nb: Booking, bs: seq<Booking>, st: State, o0: Order, free0: Use)
    requires Halves(b, sl + [nb], bs, st, o0, free0)
    ensures NoRepeats(sl) && forall c :: c in sl ==> c in sl + [nb] && c in st.order
    ensures nb in sl + [nb] && nb in bs && nb in st.order && nb !in st.hostOf && nb != b && nb !in sl
  {
    assert forall i :: 0 <= i < |sl| ==> (sl + [nb])[i] == sl[i];
    assert (sl + [nb])[|sl|] == nb;
  }

  lemma PartsLeft(s: Setup, b: Booking, sl: seq<Booking>, nb: Booking, bs: seq<Booking>, st: State,
                  o0: Order, o1: Order)
    requires b in st.order && nb in st.order && o0.Keys == o1.Keys == st.order[b].Keys
    requires forall g :: g in o0 ==> o1[g] == o0[g] - Amount(st.order[nb], g)
    requires forall g :: g in o0 ==> st.order[b][g] + Booked(sl + [nb], st.order, g) == o0[g]
    requires forall g: Group :: Booked(sl, st.order, g) >= 0 && Amount(st.order[nb], g) >= 0
    requires s.Valid() && OrderOk(s, b, st.order[b])
    ensures forall g :: g in o0 ==> st.order[b][g] + Booked(sl, st.order, g) == o1[g] && 0 <= o1[g] <= o0[g]
  {
    forall g | g in o0
      ensures st.order[b][g] + Booked(sl, st.order, g) == o1[g] && 0 <= o1[g] <= o0[g]
    {
      BookedAppend(sl, st.order, nb, g);
    }
  }

  lemma LimitOk(s: Setup, b: Booking, sl: seq<Booking>, st: State, o0: Order, o1: Order)
    requires s.Valid() && b in st.order && OrderOk(s, b, st.order[b]) && OrderOk(s, b, o0)
    requires o1.Keys == o0.Keys && forall g :: g in o0 ==> 0 <= o1[g] <= o0[g]
    requires forall c :: c in sl ==> c.pattern == b.pattern && OrderOk(s, c, OrderIn(st.order, c))
    requires forall g :: g in o0 ==> st.order[b][g] + Booked(sl, st.order, g) == o1[g]
    ensures OrderOk(s, b, o1)
  {
    hide Booked, OrderIn;
    forall g | g in o1
      ensures Enough(o1[g], s.least[g])
    {
      BookedEnough(s, sl, st.order, g);
    }
    if b.pattern in s.even {
      WholeSum(s, b, sl, st, o1);
    }
  }

  lemma WholeSum(s: Setup, b: Booking, sl: seq<Booking>, st: State, o1: Order)
    requires s.Valid() && b in st.order && OrderOk(s, b, st.order[b]) && b.pattern in s.even
    requires o1.Keys == st.order[b].Keys
    requires forall c :: c in sl ==> c.pattern == b.pattern && OrderOk(s, c, OrderIn(st.order, c))
    requires forall g :: g in o1 ==> st.order[b][g] + Booked(sl, st.order, g) == o1[g]
    ensures Whole(o1)
  {
    hide Booked, OrderIn, Enough;
    forall g, k | g in o1 && k in o1 && o1[g] > 0
      ensures o1[k] > 0
    {
      BookedTogether(s, sl, st.order, g, k);
      BookedEnough(s, sl, st.order, k);
      BookedEnough(s, sl, st.order, g);
    }
  }

  /** One of the hosts that accepts the booking, if there is one. */
  method FindUnused(ghost s: Setup, unusedHosts: set<Host>, b: Booking, ghost bs: seq<Booking>, ghost st: State)
    returns (found: Host?)
    requires InBalance(s, bs, st) && b in bs && b.host == null && unusedHosts <= s.hosts
    ensures found != null ==> found in unusedHosts && CanApply(s, st, found, b)
    ensures found == null ==> forall h :: h in unusedHosts ==> !CanApply(s, st, h, b)
  {
    hide InBalance, CanApply;
    found := null;
    var rest := unusedHosts;
    while rest != {}
      invariant rest <= unusedHosts
      invariant forall h :: h in unusedHosts - rest ==> !CanApply(s, st, h, b)
    {
      var otherHost :| otherHost in rest;
      rest := rest - {otherHost};
      var accept := Accepts(s, otherHost, b, bs, st);
      if accept {
        return otherHost;
      }
    }
  }

  /** Before the first half is taken, the booking is all there. */
  lemma SpreadStart(s: Setup, b: Booking, bs: seq<Booking>, st: State) returns (o0: Order, free0: Use)
    requires InBalance(s, bs, st) && b in bs && b in st.hostOf
    ensures s.Valid() && OrderOk(s, b, o0) && Halves(b, [], bs, st, o0, free0)
    ensures b.pattern.groups != [] && b.pattern.Valid() && b in st.order && o0 == st.order[b]
    ensures st.hostOf[b] in st.free && free0 == st.free[st.hostOf[b]]
  {
    hide UsedBy, UseOf;
    assert OrderOk(s, b, st.order[b]);
    assert Placed(s, bs, st, b) && HostOk(s, st.hostOf[b], st);
    o0, free0 := st.order[b], st.free[st.hostOf[b]];
    NoneUsed(st.order, st.hostOf[b].cpuArch, o0.Keys);
  }

  lemma NoneUsed(o: Orders, arch: Arch, groups: set<Group>)
    ensures (forall u: Use :: u.Plus(UsedBy([], o, arch)) == u) && forall g :: g in groups ==> Booked([], o, g) == 0
  {
  }

  /** The last half goes to an unused host. */
  lemma AfterSpread(s: Setup, pg: seq<set<nat>>, bs: seq<Booking>, st: State, h: Host, nb: Booking, unused: set<Host>)
    requires CanApply(s, st, h, nb) && NothingLost(bs, st, [nb]) && HostsCompatible(s, pg, st) && Unused(unused, st)
    requires h in unused
    ensures NothingLost(bs, ApplyStep(st, h, nb), []) && HostsCompatible(s, pg, ApplyStep(st, h, nb))
    ensures Unused(unused - {h}, ApplyStep(st, h, nb))
  {
    hide UseOf;
    var st' := ApplyStep(st, h, nb);
    forall k, j | k in st'.hosting && 0 <= j < |st'.hosting[k]|
      ensures FitsBeside(s, pg, st'.hosting[k][..j], st'.hosting[k][j])
    {
      if k != h { assert st'.hosting[k][..j] == st.hosting[k][..j]; }
    }
    forall c | c in bs && c !in st'.hostOf
      ensures c !in [nb]
    {
    }
  }

  lemma StillAccepted(s: Setup, bs: seq<Booking>, st: State, st': State, b: Booking, sl: seq<Booking>, h: Host,
                      nb: Booking, unused: set<Host>)
    requires Balanced(s, bs, st) && OnlyReverted(st, st', b, sl) && CanApply(s, st, h, nb) && nb != b && nb !in sl
    requires b in st.hostOf
    requires h in unused && Unused(unused, st)
    ensures CanApply(s, st', h, nb) && Unused(unused, st') && st'.hostOf == st.hostOf && st'.count == st.count
  {
    assert Placed(s, bs, st, b);
  }

  lemma NothingLostAfterSplit(bs: seq<Booking>, st: State, b: Booking, nb: Booking, sl: seq<Booking>)
    requires NothingLost(bs, st, sl) && b in st.order && b in st.hostOf && st.hostOf[b] in st.free && nb !in bs
    ensures NothingLost(bs + [nb], SplitStep(st, b, nb), sl + [nb])
  {
    hide UseOf;
    forall c | c in bs + [nb] && c !in st.hostOf && c !in sl + [nb]
      ensures c in bs && c !in sl
    {
    }
  }

  lemma SameUnused(unused: set<Host>, st1: State, st': State, b: Booking, sl: seq<Booking>)
    requires Unused(unused, st1) && OnlyReverted(st1, st', b, sl)
    ensures Unused(unused, st') && st'.hostOf == st1.hostOf && st'.count == st1.count
  {
  }

  /** One more half was taken from the booking. */
  lemma SpreadStep(s: Setup, pg: seq<set<nat>>, unused: set<Host>, b: Booking, nb: Booking, g: Group, sl: seq<Booking>,
                   bs: seq<Booking>, st: State, o0: Order, free0: Use)
    requires Halves(b, sl, bs, st, o0, free0) && nb !in bs && nb != b && nb !in st.hostOf && nb.pattern == b.pattern
    requires NothingLost(bs, st, sl) && HostsCompatible(s, pg, st) && Unused(unused, st)
    requires g in b.pattern.groups && b.pattern.Valid()
    requires b in st.order && forall g :: g in b.pattern.members ==> g in st.order[b] && st.order[b][g] >= 2
    requires FullHalves(b, sl, st) && st.order.Keys == SetOf(bs)
    ensures b in st.hostOf && st.hostOf[b] in st.free
    ensures LackersKept(st, SplitStep(st, b, nb)) && FullHalves(b, sl + [nb], SplitStep(st, b, nb))
    ensures var st' := SplitStep(st, b, nb);
      && Halves(b, sl + [nb], bs + [nb], st', o0, free0) && NothingLost(bs + [nb], st', sl + [nb])
      && HostsCompatible(s, pg, st') && Unused(unused, st') && st'.hostOf == st.hostOf && st'.hosting == st.hosting
      && st'.count == st.count
      && 0 <= Amount(OrderIn(st'.order, b), g) < Amount(OrderIn(st.order, b), g)
  {
    hide Halves, NothingLost, HostsCompatible, UseOf, FullHalves, LackersKept;
    BookingOf(b, sl, bs, st, o0, free0);
    HalvesSplit(b, nb, sl, bs, st, o0, free0);
    FullSplit(b, nb, sl, st);
    NothingLostAfterSplit(bs, st, b, nb, sl);
    SameHosting(s, pg, st, SplitStep(st, b, nb));
    assert g in b.pattern.members;
  }

  /** The accepted half stays out, all other halves go back, and the half is applied. */
  method Settle(ghost s: Setup, ghost unusedHosts: set<Host>, booking: Booking, splittedList: seq<Booking>,
                half: Booking, foundHost: Host, ghost bs: seq<Booking>, ghost st: State, ghost o0: Order,
                ghost free0: Use, ghost pg: seq<set<nat>>)
    returns (ghost st': State)
    requires Halving(s, unusedHosts, pg, booking, splittedList + [half], bs, st, o0, free0)
    requires foundHost in unusedHosts && CanApply(s, st, foundHost, half)
    modifies booking`order, splittedList`order, booking.pattern.members`count, s.hosts, half`host
    ensures Spread(s, unusedHosts - {foundHost}, pg, bs, st')
    ensures st'.count == st.count && st'.hostOf == st.hostOf[half := foundHost] && LackersKept(st, st')
    ensures Settled(st, st', booking, splittedList, half, foundHost, o0)
  {
    hide InBalance, Halves, NothingLost, HostsCompatible, OrderOk, CanApply, Unused, OnlyReverted, Balanced, Whole,
      FullHalves, Settled, Setup.Valid;
    FewerFull(booking, splittedList, half, st);
    ghost var o1, free1 := TakeOut(s, booking, splittedList, half, bs, st, o0, free0, foundHost);
    ghost var st1 := RevertAll(s, booking, splittedList, bs, st, o1, free1, [half], pg);
    StillAccepted(s, bs, st, st1, booking, splittedList, foundHost, half, unusedHosts);
    AfterSpread(s, pg, bs, st1, foundHost, half, unusedHosts);
    st' := Apply(s, foundHost, half, bs, st1);
    HalfSettled(s, unusedHosts, bs, st, st1, booking, splittedList, half, foundHost, o0, o1, free1);
  }

  /** b and the half are together what b was; the half is alone on h. */
  ghost predicate Settled(st: State, st': State, b: Booking, sl: seq<Booking>, half: Booking, h: Host, o0: Order) {
    && half in st.order && half in st'.order && st'.order[half] == st.order[half]
    && b in st'.order && (forall g :: g in o0 ==> Amount(st'.order[b], g) + Amount(st.order[half], g) == o0[g])
    && (forall c :: c in st.order && c != b && c !in sl ==> c in st'.order && st'.order[c] == st.order[c])
    && st'.hosting == st.hosting[h := [half]]
    && (forall k :: k in st.free && k != h && !(b in st.hostOf && st.hostOf[b] == k) ==>
         k in st'.free && st'.free[k] == st.free[k])
  }

  lemma HalfSettled(s: Setup, unused: set<Host>, bs: seq<Booking>, st: State, st1: State, b: Booking, sl: seq<Booking>,
                    half: Booking, h: Host, o0: Order, o1: Order, free1: Use)
    requires OnlyReverted(st, st1, b, sl) && Halves(b, [], bs, st1, o1, free1) && half in st.order && half !in sl
    requires CanApply(s, st1, h, half) && Unused(unused, st) && h in unused && half != b
    requires o1.Keys == o0.Keys && forall g :: g in o0 ==> o1[g] + Amount(st.order[half], g) == o0[g]
    ensures Settled(st, ApplyStep(st1, h, half), b, sl, half, h, o0)
  {
    hide UseOf, UsedBy, Use.NonNegative;
    var st' := ApplyStep(st1, h, half);
    assert st1.hosting[h] == [] && [] + [half] == [half];
    forall g | g in o0
      ensures Amount(st'.order[b], g) + Amount(st.order[half], g) == o0[g]
    {
      assert Booked([], st1.order, g) == 0;
    }
  }

  lemma FewerFull(b: Booking, sl: seq<Booking>, nb: Booking, st: State)
    requires FullHalves(b, sl + [nb], st)
    ensures FullHalves(b, sl, st)
  {
    assert forall c :: c in sl ==> c in sl + [nb];
  }

  lemma TakeOut(s: Setup, b: Booking, sl: seq<Booking>, nb: Booking, bs: seq<Booking>, st: State, o0: Order,
                free0: Use, h: Host)
    returns (o1: Order, free1: Use)
    requires InBalance(s, bs, st) && Halves(b, sl + [nb], bs, st, o0, free0) && s.Valid() && OrderOk(s, b, o0)
    requires CanApply(s, st, h, nb)
    ensures Halves(b, sl, bs, st, o1, free1) && OrderOk(s, b, o1) && b in st.hostOf && Balanced(s, bs, st)
    ensures h in s.hosts
    ensures nb in bs && nb != b && nb !in sl && forall c :: c in sl ==> c !in [nb]
    ensures nb in st.order && o1.Keys == o0.Keys && forall g :: g in o0 ==> o1[g] + Amount(st.order[nb], g) == o0[g]
  {
    hide Halves, Balanced;
    BookingOf(b, sl + [nb], bs, st, o0, free0);
    o1, free1 := HalvesWithout(s, b, sl, nb, bs, st, o0, free0);
  }

  /** Every booking that holds members is on a host, beside compatible ones; unused hosts
      are empty. */
  ghost predicate Spread(s: Setup, unusedHosts: set<Host>, pg: seq<set<nat>>, bs: seq<Booking>, st: State)
    reads s.all, s.hosts, st.order.Keys
  {
    InBalance(s, bs, st) && NothingLost(bs, st, []) && HostsCompatible(s, pg, st) && Unused(unusedHosts, st)
  }

  /** The same while halves of one booking wait in a list. */
  ghost predicate Halving(s: Setup, unusedHosts: set<Host>, pg: seq<set<nat>>, b: Booking, sl: seq<Booking>,
                          bs: seq<Booking>, st: State, o0: Order, free0: Use)
    reads s.all, s.hosts, st.order.Keys
  {
    && InBalance(s, bs, st) && NothingLost(bs, st, sl) && HostsCompatible(s, pg, st) && Unused(unusedHosts, st)
    && Halves(b, sl, bs, st, o0, free0) && s.Valid() && OrderOk(s, b, o0) && b.pattern.groups != [] && b.pattern.Valid()
    && FullHalves(b, sl, st)
  }

  lemma HalvingStart(s: Setup, unused: set<Host>, b: Booking, bs: seq<Booking>, st: State, pg: seq<set<nat>>)
    returns (o0: Order, free0: Use)
    requires Spread(s, unused, pg, bs, st) && b in bs && b in st.hostOf
    ensures Halving(s, unused, pg, b, [], bs, st, o0, free0) && b.pattern.groups != []
    ensures b in st.order && o0 == st.order[b] && b in st.hostOf && st.hostOf[b] in st.free
    ensures free0 == st.free[st.hostOf[b]]
  {
    hide InBalance, Halves, OrderOk;
    o0, free0 := SpreadStart(s, b, bs, st);
  }

  lemma HalvingBalanced(s: Setup, unused: set<Host>, b: Booking, sl: seq<Booking>, bs: seq<Booking>, st: State,
                        o0: Order, free0: Use, pg: seq<set<nat>>)
    requires Halving(s, unused, pg, b, sl, bs, st, o0, free0)
    ensures InBalance(s, bs, st)
  {
  }

  /** No half was accepted: all go back. */
  method PutBack(ghost s: Setup, ghost unusedHosts: set<Host>, booking: Booking, splittedList: seq<Booking>,
                 ghost bs: seq<Booking>, ghost st: State, ghost o0: Order, ghost free0: Use, ghost pg: seq<set<nat>>)
    returns (ghost st': State)
    requires Halving(s, unusedHosts, pg, booking, splittedList, bs, st, o0, free0)
    modifies booking`order, splittedList`order, booking.pattern.members`count, s.hosts`freeDisc, s.hosts`availableRAM
    modifies s.hosts`bookedMembers
    ensures Spread(s, unusedHosts, pg, bs, st') && st'.hostOf == st.hostOf && st'.count == st.count
    ensures LackersKept(st, st') && OnlyReverted(st, st', booking, splittedList)
    ensures booking in st'.order && st'.order[booking] == o0
    ensures booking in st.hostOf && st.hostOf[booking] in st'.free && st'.free[st.hostOf[booking]] == free0
  {
    hide LackersKept, FullHalves, InBalance, Halves, NothingLost, HostsCompatible, OrderOk, Unused, OnlyReverted;
    assert splittedList + [] == splittedList;
    st' := RevertAll(s, booking, splittedList, bs, st, o0, free0, [], pg);
    SameUnused(unusedHosts, st, st', booking, splittedList);
    AllBack(booking, bs, st', o0, free0);
  }

  lemma AllBack(b: Booking, bs: seq<Booking>, st: State, o0: Order, free0: Use)
    requires Halves(b, [], bs, st, o0, free0)
    ensures b in st.order && st.order[b] == o0
    ensures b in st.hostOf && st.hostOf[b] in st.free && st.free[st.hostOf[b]] == free0
  {
    var arch := st.hostOf[b].cpuArch;
    NoneUsed(st.order, arch, o0.Keys);
    assert UsedBy([], st.order, arch) == NOTHING;
  }

  ghost predicate IsSplit(st: State, st': State, b: Booking, half: Booking) {
    b in st.order && b in st.hostOf && st.hostOf[b] in st.free && st' == SplitStep(st, b, half)
  }

  /** Between the states nothing changed but b's order, its host's resources, and bookings that
      are not among bs. */
  ghost predicate OnlyChanged(bs: seq<Booking>, st: State, st': State, b: Booking) {
    && st'.hosting == st.hosting && st'.hostOf == st.hostOf
    && (forall c :: c in bs && c != b && c in st.order ==> c in st'.order && st'.order[c] == st.order[c])
    && (forall h :: h in st.free && !(b in st.hostOf && st.hostOf[b] == h) ==>
         h in st'.free && st'.free[h] == st.free[h])
  }

  /** The booking was halved once for each of sl, as often as it could be, and no unused host took
      any of these halves. */
  ghost predicate Halfway(s: Setup, unused: set<Host>, bs: seq<Booking>, st: State, b: Booking,
                          sl: seq<Booking>, st': State) {
    && b in st.order && b in st.hostOf && b in st'.order && OnlyChanged(bs, st, st', b)
    && st'.order[b] == HalvedTimes(st.order[b], b.pattern.groups, |sl|)
    && (forall j: nat :: j < |sl| ==> TwiceEnough(s, b.pattern, HalvedTimes(st.order[b], b.pattern.groups, j)))
    && (forall j: nat :: j < |sl| ==> NoneTakes(st, unused, b.pattern, st.order[b], j))
    && (forall c :: c in sl ==> c !in bs)
    && (forall h :: h in unused ==> h in st.free && st.hostOf[b] != h)
  }

  lemma HalfwayStart(s: Setup, unused: set<Host>, bs: seq<Booking>, st: State, b: Booking)
    requires Balanced(s, bs, st) && b in bs && b in st.hostOf && Unused(unused, st) && unused <= s.hosts
    ensures Halfway(s, unused, bs, st, b, [], st)
  {
    hide HostOk, OrderOk, CountsOk, NoneTakes, TwiceEnough;
    HostedIn(s, bs, st);
  }

  /** The half that was just split off, and which of the unused hosts take it. */
  lemma HalfTaken(s: Setup, unused: set<Host>, bs: seq<Booking>, st: State, b: Booking, sl: seq<Booking>, st1: State,
                  st2: State, half: Booking)
    requires Halfway(s, unused, bs, st, b, sl, st1) && CanHalve(s, st1, b) && IsSplit(st1, st2, b, half)
    requires half.pattern == b.pattern && half !in st1.order && half !in st.hostOf && unused <= s.hosts
    requires forall h :: h in unused ==> h in st1.hosting
    ensures var o0, gs := st.order[b], b.pattern.groups;
      && half in st2.order && st2.order[half] == NextHalf(o0, gs, |sl|)
      && TwiceEnough(s, b.pattern, HalvedTimes(o0, gs, |sl|))
      && forall h :: h in unused ==> (CanApply(s, st2, h, half) <==> HalfFits(st, h, b.pattern, NextHalf(o0, gs, |sl|)))
  {
    hide UseOf, Use.NonNegative, FirstHalf, OtherHalf, NoneTakes;
  }

  lemma HalfwayMore(s: Setup, unused: set<Host>, bs: seq<Booking>, st: State, b: Booking, sl: seq<Booking>, st1: State,
                    st2: State, half: Booking)
    requires Halfway(s, unused, bs, st, b, sl, st1) && IsSplit(st1, st2, b, half)
    requires half !in bs && half != b && TwiceEnough(s, b.pattern, HalvedTimes(st.order[b], b.pattern.groups, |sl|))
    requires NoneTakes(st, unused, b.pattern, st.order[b], |sl|)
    ensures Halfway(s, unused, bs, st, b, sl + [half], st2)
  {
    hide UseOf, FirstHalf, OtherHalf, NoneTakes, TwiceEnough;
  }

  lemma SpreadHalfway(s: Setup, unused: set<Host>, pg: seq<set<nat>>, bs: seq<Booking>, st: State, b: Booking)
    requires Spread(s, unused, pg, bs, st) && b in bs && b in st.hostOf && unused <= s.hosts
    ensures Halfway(s, unused, bs, st, b, [], st) && (forall c :: c in st.hostOf ==> c in bs) && Unused(unused, st)
  {
    hide Balanced, HostsCompatible, NothingLost, Unused, Halfway;
    HostKnown(s, bs, st, b);
    HalfwayStart(s, unused, bs, st, b);
  }

  lemma HalfKnown(s: Setup, unused: set<Host>, bs: seq<Booking>, st: State, b: Booking, sl: seq<Booking>, st1: State,
                  st2: State, half: Booking)
    requires Halfway(s, unused, bs, st, b, sl, st1) && CanHalve(s, st1, b) && IsSplit(st1, st2, b, half)
    requires half.pattern == b.pattern && half !in st1.order && half !in st.hostOf && unused <= s.hosts
    requires Unused(unused, st)
    ensures var o0, gs := st.order[b], b.pattern.groups;
      && half in st2.order && st2.order[half] == NextHalf(o0, gs, |sl|)
      && TwiceEnough(s, b.pattern, HalvedTimes(o0, gs, |sl|))
      && forall h :: h in unused ==> (CanApply(s, st2, h, half) <==> HalfFits(st, h, b.pattern, NextHalf(o0, gs, |sl|)))
  {
    hide CanApply, HalfFits, CanHalve, NoneTakes, TwiceEnough, HalvedTimes, NextHalf;
    HalfTaken(s, unused, bs, st, b, sl, st1, st2, half);
  }

  lemma HalfRefused(s: Setup, unused: set<Host>, bs: seq<Booking>, st: State, b: Booking, sl: seq<Booking>, st1: State,
                    st2: State, half: Booking)
    requires Halfway(s, unused, bs, st, b, sl, st1) && IsSplit(st1, st2, b, half) && half !in bs && half != b
    requires TwiceEnough(s, b.pattern, HalvedTimes(st.order[b], b.pattern.groups, |sl|))
    requires forall h :: h in unused ==> !HalfFits(st, h, b.pattern, NextHalf(st.order[b], b.pattern.groups, |sl|))
    ensures Halfway(s, unused, bs, st, b, sl + [half], st2)
  {
    hide HalfFits, TwiceEnough, HalvedTimes, NextHalf, Halfway;
    HalfwayMore(s, unused, bs, st, b, sl, st1, st2, half);
  }

  /** It can be halved no more: no half fits. */
  lemma HalfwayNone(s: Setup, unused: set<Host>, bs: seq<Booking>, st: State, b: Booking, sl: seq<Booking>, st1: State)
    requires Halfway(s, unused, bs, st, b, sl, st1) && !CanHalve(s, st1, b)
    ensures NoHalfFits(s, st, unused, b.pattern, st.order[b])
  {
    hide NoneTakes, HalvedTimes;
    var p, o0 := b.pattern, st.order[b];
    assert !TwiceEnough(s, p, HalvedTimes(o0, p.groups, |sl|));
    forall k: nat | AllowsHalf(s, p, o0, k)
      ensures NoneTakes(st, unused, p, o0, k)
    {
      assert k < |sl|;
    }
  }

  /** The booking gave its first half that some unused host takes to one that takes it. */
  ghost predicate GaveHalf(s: Setup, unused: set<Host>, bs: seq<Booking>, st: State, st': State, b: Booking, k: nat,
                           moved: Booking, h: Host) {
    && b in st.order && b in st.hostOf && b in st'.order && moved in st'.order && moved.pattern == b.pattern
    && var p, o0 := b.pattern, st.order[b];
      && AllowsHalf(s, p, o0, k) && (forall j: nat :: j < k ==> NoneTakes(st, unused, p, o0, j))
      && h in unused && HalfFits(st, h, p, NextHalf(o0, p.groups, k)) && st'.order[moved] == NextHalf(o0, p.groups, k)
      && (forall g :: g in o0 ==> Amount(st'.order[b], g) + Amount(st'.order[moved], g) == o0[g])
      && st'.hostOf == st.hostOf[moved := h] && st'.hosting == st.hosting[h := [moved]]
      && (forall c :: c in bs && c != b && c in st.order ==> c in st'.order && st'.order[c] == st.order[c])
      && (forall k :: k in st.free && k != h && st.hostOf[b] != k ==> k in st'.free && st'.free[k] == st.free[k])
  }

  /** The half that came off last goes to a host that takes it, after all before were refused. */
  ghost predicate Taken(s: Setup, unused: set<Host>, bs: seq<Booking>, st: State, b: Booking, sl: seq<Booking>,
                        st1: State, st2: State, half: Booking, h: Host) {
    && Halfway(s, unused, bs, st, b, sl, st1) && IsSplit(st1, st2, b, half) && h in unused && CanApply(s, st2, h, half)
    && var o := NextHalf(st.order[b], b.pattern.groups, |sl|);
      && HalfFits(st, h, b.pattern, o) && half in st2.order && st2.order[half] == o
      && TwiceEnough(s, b.pattern, HalvedTimes(st.order[b], b.pattern.groups, |sl|))
  }

  lemma TakenHost(s: Setup, unused: set<Host>, bs: seq<Booking>, st: State, b: Booking, sl: seq<Booking>, st1: State,
                  st2: State, half: Booking, h: Host)
    requires Taken(s, unused, bs, st, b, sl, st1, st2, half, h)
    ensures h in unused && CanApply(s, st2, h, half)
  {
  }

  lemma HalfwayFound(s: Setup, unused: set<Host>, bs: seq<Booking>, st: State, b: Booking, sl: seq<Booking>, st1: State,
                     st2: State, st': State, half: Booking, h: Host, o0: Order)
    requires Taken(s, unused, bs, st, b, sl, st1, st2, half, h) && half !in bs && b in bs && o0 == st.order[b]
    requires Settled(st2, st', b, sl, half, h, o0) && st'.hostOf == st2.hostOf[half := h] && half.pattern == b.pattern
    ensures GaveHalf(s, unused, bs, st, st', b, |sl|, half, h)
  {
    hide UseOf, FirstHalf, OtherHalf, NoneTakes, TwiceEnough, HalfFits, Amount, HalvedTimes, NextHalf;
    forall c | c in bs && c != b && c in st.order
      ensures c in st'.order && st'.order[c] == st.order[c]
    {
      assert c !in sl && c in st1.order && c in st2.order;
    }
  }

  /** Everything is as it was, but for bookings that are not among bs. */
  ghost predicate AsItWas(bs: seq<Booking>, st: State, st': State) {
    && st'.hosting == st.hosting && st'.hostOf == st.hostOf && st'.count == st.count
    && (forall c :: c in bs && c in st.order ==> c in st'.order && st'.order[c] == st.order[c])
    && (forall h :: h in st.free ==> h in st'.free && st'.free[h] == st.free[h])
  }

  lemma HalfwayBack(s: Setup, unused: set<Host>, bs: seq<Booking>, st: State, b: Booking, sl: seq<Booking>,
                    st1: State, st': State)
    requires Halfway(s, unused, bs, st, b, sl, st1) && OnlyReverted(st1, st', b, sl) && st1.count == st.count
    requires b in st'.order && st'.order[b] == st.order[b] && st.hostOf[b] in st.free
    requires st.hostOf[b] in st'.free && st'.free[st.hostOf[b]] == st.free[st.hostOf[b]]
    ensures AsItWas(bs, st, st')
  {
    hide NoneTakes, TwiceEnough, HalvedTimes;
    forall c | c in bs && c in st.order
      ensures c in st'.order && st'.order[c] == st.order[c]
    {
      if c != b { assert c !in sl && c in st1.order; }
    }
  }

  /** It cannot be halved once more, and none of the halves was taken: all go back. */
  method GiveUp(ghost s: Setup, ghost unused: set<Host>, booking: Booking, splittedList: seq<Booking>,
                ghost bs: seq<Booking>, ghost st: State, ghost bs1: seq<Booking>, ghost st1: State, ghost o0: Order,
                ghost free0: Use, ghost pg: seq<set<nat>>)
    returns (ghost st': State)
    requires Halving(s, unused, pg, booking, splittedList, bs1, st1, o0, free0) && bs <= bs1
    requires Halfway(s, unused, bs, st, booking, splittedList, st1) && !CanHalve(s, st1, booking)
    requires LackersKept(st, st1) && st1.count == st.count && booking in st.order && o0 == st.order[booking]
    requires booking in st.hostOf && st.hostOf[booking] in st.free && free0 == st.free[st.hostOf[booking]]
    modifies booking`order, splittedList`order, booking.pattern.members`count, s.hosts`freeDisc, s.hosts`availableRAM
    modifies s.hosts`bookedMembers
    ensures Spread(s, unused, pg, bs1, st') && LackersKept(st, st') && AsItWas(bs, st, st')
    ensures NoHalfFits(s, st, unused, booking.pattern, st.order[booking])
    ensures st'.hostOf == st.hostOf && st'.count == st.count
  {
    hide Halving, Spread, LackersKept, Halfway, NoHalfFits, AsItWas, OnlyReverted, CanHalve;
    HalfwayNone(s, unused, bs, st, booking, splittedList, st1);
    KnownHalfway(s, unused, bs, st, booking, splittedList, st1);
    st' := PutBack(s, unused, booking, splittedList, bs1, st1, o0, free0, pg);
    LackersThrough(st, st1, st');
    HalfwayBack(s, unused, bs, st, booking, splittedList, st1, st');
  }

  lemma KnownHalfway(s: Setup, unused: set<Host>, bs: seq<Booking>, st: State, b: Booking, sl: seq<Booking>, st1: State)
    requires Halfway(s, unused, bs, st, b, sl, st1)
    ensures st1.hostOf == st.hostOf && st1.hosting == st.hosting
  {
  }

  /** A host takes the last half: it moves there, and the other halves go back. */
  method Give(ghost s: Setup, ghost unused: set<Host>, booking: Booking, splittedList: seq<Booking>, half: Booking,
              foundHost: Host, ghost bs: seq<Booking>, ghost st: State, ghost st1: State, ghost bs2: seq<Booking>,
              ghost st2: State, ghost o0: Order, ghost free0: Use, ghost pg: seq<set<nat>>)
    returns (ghost st': State)
    requires Halving(s, unused, pg, booking, splittedList + [half], bs2, st2, o0, free0)
    requires Taken(s, unused, bs, st, booking, splittedList, st1, st2, half, foundHost) && booking in bs && half !in bs
    requires LackersKept(st, st2) && st2.count == st.count && st2.hostOf == st.hostOf && half.pattern == booking.pattern
    requires booking in st.order && o0 == st.order[booking]
    modifies booking`order, splittedList`order, booking.pattern.members`count, s.hosts, half`host
    ensures Spread(s, unused - {foundHost}, pg, bs2, st') && LackersKept(st, st') && st'.count == st.count
    ensures GaveHalf(s, unused, bs, st, st', booking, |splittedList|, half, foundHost)
    ensures half in st'.hostOf
  {
    hide Halving, Spread, LackersKept, GaveHalf, Settled, Taken;
    TakenHost(s, unused, bs, st, booking, splittedList, st1, st2, half, foundHost);
    st' := Settle(s, unused, booking, splittedList, half, foundHost, bs2, st2, o0, free0, pg);
    LackersThrough(st, st2, st');
    HalfwayFound(s, unused, bs, st, booking, splittedList, st1, st2, st', half, foundHost, o0);
  }

  /** Looks for a host that takes the last half. */
  method Offer(ghost s: Setup, unused: set<Host>, booking: Booking, ghost splittedList: seq<Booking>, half: Booking,
               ghost bs: seq<Booking>, ghost st: State, ghost st1: State, ghost bs2: seq<Booking>, ghost st2: State,
               ghost o0: Order, ghost free0: Use, ghost pg: seq<set<nat>>)
    returns (found: Host?)
    requires Halving(s, unused, pg, booking, splittedList + [half], bs2, st2, o0, free0)
    requires half in bs2 && half.host == null && half !in bs && half != booking && half.pattern == booking.pattern
    requires Halfway(s, unused, bs, st, booking, splittedList, st1) && IsSplit(st1, st2, booking, half)
    requires CanHalve(s, st1, booking) && half !in st1.order && half !in st.hostOf && unused <= s.hosts
    requires Unused(unused, st) && booking in st.order && o0 == st.order[booking]
    ensures found != null ==> Taken(s, unused, bs, st, booking, splittedList, st1, st2, half, found)
    ensures found == null ==> Halfway(s, unused, bs, st, booking, splittedList + [half], st2)
  {
    hide InBalance, Halving, Halfway, HalfFits, NextHalf, HalvedTimes, TwiceEnough, IsSplit, CanApply, CanHalve;
    HalvingBalanced(s, unused, booking, splittedList + [half], bs2, st2, o0, free0, pg);
    HalfKnown(s, unused, bs, st, booking, splittedList, st1, st2, half);
    found := FindUnused(s, unused, half, bs2, st2);
    if found == null {
      HalfRefused(s, unused, bs, st, booking, splittedList, st1, st2, half);
    }
  }

  /** Takes one more half from the booking, if it can be halved, and looks for a host for it. */
  method TryHalf(ghost s: Setup, unused: set<Host>, booking: Booking, ghost g0: Group, ghost splittedList: seq<Booking>,
                 ghost bs: seq<Booking>, ghost st: State, ghost bs1: seq<Booking>, ghost st1: State, ghost o0: Order,
                 ghost free0: Use, ghost pg: seq<set<nat>>)
    returns (ok: bool, half: Booking, found: Host?, ghost bs2: seq<Booking>, ghost st2: State)
    requires Halving(s, unused, pg, booking, splittedList, bs1, st1, o0, free0) && g0 in booking.pattern.groups
    requires Halfway(s, unused, bs, st, booking, splittedList, st1) && LackersKept(st, st1) && st1.hostOf == st.hostOf
    requires Unused(unused, st) && unused <= s.hosts && booking in st.order && o0 == st.order[booking] && booking in bs
    requires forall c :: c in st.hostOf ==> c in bs
    modifies booking`order, booking.pattern.members`count, s.hosts`freeDisc, s.hosts`availableRAM, s.hosts`bookedMembers
    ensures st2.hostOf == st1.hostOf && st2.count == st1.count
    ensures !ok ==> bs2 == bs1 && st2 == st1 && Halving(s, unused, pg, booking, splittedList, bs1, st1, o0, free0)
    ensures !ok ==> !CanHalve(s, st1, booking)
    ensures ok ==> fresh(half) && bs2 == bs1 + [half] && half.pattern == booking.pattern && LackersKept(st, st2)
    ensures ok ==> Halving(s, unused, pg, booking, splittedList + [half], bs2, st2, o0, free0)
    ensures ok ==> 0 <= Amount(OrderIn(st2.order, booking), g0) < Amount(OrderIn(st1.order, booking), g0)
    ensures ok && found == null ==> Halfway(s, unused, bs, st, booking, splittedList + [half], st2)
    ensures ok && found != null ==> Taken(s, unused, bs, st, booking, splittedList, st1, st2, half, found)
  {
    hide InBalance, CanApply, Amount, OrderIn, Halving, LackersKept, Halfway, HalfFits, NextHalf, HalvedTimes, CanHalve,
      IsSplit, TwiceEnough, Unused;
    ok, half, bs2, st2 := SplitOnce(s, unused, booking, g0, splittedList, bs1, st1, o0, free0, pg);
    found := null;
    if ok {
      LackersThrough(st, st1, st2);
      found := Offer(s, unused, booking, splittedList, half, bs, st, st1, bs2, st2, o0, free0, pg);
    }
  }

  /** Halves the booking once more: ends with all halves put back if it cannot be halved, and with
      the half moved if an unused host takes it. */
  method SpreadHalf(ghost s: Setup, unused: set<Host>, booking: Booking, ghost g0: Group, splittedList: seq<Booking>,
                    ghost bs: seq<Booking>, ghost st: State, ghost bs1: seq<Booking>, ghost st1: State, ghost o0: Order,
                    ghost free0: Use, ghost pg: seq<set<nat>>)
    returns (done: bool, half: Booking, found: Host?, ghost bs': seq<Booking>, ghost st': State)
    requires Halving(s, unused, pg, booking, splittedList, bs1, st1, o0, free0) && g0 in booking.pattern.groups
    requires Halfway(s, unused, bs, st, booking, splittedList, st1) && LackersKept(st, st1) && st1.hostOf == st.hostOf
    requires Unused(unused, st) && unused <= s.hosts && booking in st.order && o0 == st.order[booking] && booking in bs
    requires (forall c :: c in st.hostOf ==> c in bs) && bs <= bs1 && st1.count == st.count
    requires booking in st.hostOf && st.hostOf[booking] in st.free && free0 == st.free[st.hostOf[booking]]
    modifies booking`order, splittedList`order, booking.pattern.members`count, s.hosts
    ensures bs1 <= bs' && (forall b :: b in bs' ==> b in bs1 || fresh(b)) && st'.count == st.count
    ensures LackersKept(st, st')
    ensures !done ==> fresh(half) && st'.hostOf == st.hostOf
    ensures !done ==> Halving(s, unused, pg, booking, splittedList + [half], bs', st', o0, free0)
    ensures !done ==> Halfway(s, unused, bs, st, booking, splittedList + [half], st')
    ensures !done ==> 0 <= Amount(OrderIn(st'.order, booking), g0) < Amount(OrderIn(st1.order, booking), g0)
    ensures done ==> Spread(s, if found == null then unused else unused - {found}, pg, bs', st')
    ensures done && found == null ==> half == booking && NoHalfFits(s, st, unused, booking.pattern, st.order[booking])
    ensures done && found == null ==> AsItWas(bs, st, st') && st'.hostOf == st.hostOf
    ensures done && found != null ==> fresh(half) && half in bs' && half in st'.hostOf
    ensures done && found != null ==> GaveHalf(s, unused, bs, st, st', booking, |splittedList|, half, found)
  {
    hide InBalance, CanApply, Amount, OrderIn, Halving, Spread, LackersKept, Halfway, NoHalfFits, GaveHalf, AsItWas,
      CanHalve, IsSplit, Unused, Taken;
    var ok;
    ok, half, found, bs', st' := TryHalf(s, unused, booking, g0, splittedList, bs, st, bs1, st1, o0, free0, pg);
    done := !ok || found != null;
    if !ok {
      st' := GiveUp(s, unused, booking, splittedList, bs, st, bs', st', o0, free0, pg);
      half, found := booking, null;
    } else if found != null {
      st' := Give(s, unused, booking, splittedList, half, found, bs, st, st1, bs', st', o0, free0, pg);
    }
  }

  /** Halves the booking until some unused host takes a half, which then moves there, all other
      halves going back; if none takes any half it allows, everything is put back. */
  method TrySpread(ghost s: Setup, unusedHosts: set<Host>, booking: Booking, ghost bs: seq<Booking>,
                   ghost st: State, ghost pg: seq<set<nat>>)
    returns (foundHost: Host?, moved: Booking, ghost bs': seq<Booking>, ghost st': State, ghost k: nat)
    requires Spread(s, unusedHosts, pg, bs, st) && booking in bs && booking in st.hostOf && unusedHosts <= s.hosts
    modifies booking`order, booking.pattern.members`count, s.hosts
    ensures Spread(s, if foundHost == null then unusedHosts else unusedHosts - {foundHost}, pg, bs', st')
    ensures bs <= bs' && (forall b :: b in bs' ==> b in bs || fresh(b)) && st'.count == st.count
    ensures moved in bs' && moved in st'.hostOf && (moved == booking || fresh(moved))
    ensures LackersKept(st, st') && booking in st.order
    ensures foundHost == null ==>
      NoHalfFits(s, st, unusedHosts, booking.pattern, st.order[booking]) && AsItWas(bs, st, st')
    ensures foundHost != null ==> GaveHalf(s, unusedHosts, bs, st, st', booking, k, moved, foundHost)
  {
    hide InBalance, CanApply, Amount, OrderIn, Halving, Spread, LackersKept, Halfway, NoHalfFits, GaveHalf,
      AsItWas, Unused;
    bs', st', k := bs, st, 0;
    LackersSelf(st);
    ghost var o0, free0 := HalvingStart(s, unusedHosts, booking, bs, st, pg);
    SpreadHalfway(s, unusedHosts, pg, bs, st, booking);
    ghost var g0 := booking.pattern.groups[0];
    var splittedList: seq<Booking> := [];
    while true
      invariant Halving(s, unusedHosts, pg, booking, splittedList, bs', st', o0, free0)
      invariant bs <= bs' && (forall b :: b in bs' ==> b in bs || fresh(b)) && fresh(splittedList)
      invariant st'.hostOf == st.hostOf && st'.count == st.count && LackersKept(st, st')
      invariant Halfway(s, unusedHosts, bs, st, booking, splittedList, st')
      decreases Amount(OrderIn(st'.order, booking), g0)
    {
      var done;
      done, moved, foundHost, bs', st' :=
        SpreadHalf(s, unusedHosts, booking, g0, splittedList, bs, st, bs', st', o0, free0, pg);
      if done {
        k := |splittedList|;
        return;
      }
      splittedList := splittedList + [moved];
    }
  }

  method SplitOnce(ghost s: Setup, ghost unusedHosts: set<Host>, booking: Booking, ghost g0: Group,
                   ghost splittedList: seq<Booking>, ghost bs: seq<Booking>, ghost st: State, ghost o0: Order,
                   ghost free0: Use, ghost pg: seq<set<nat>>)
    returns (ok: bool, half: Booking, ghost bs': seq<Booking>, ghost st': State)
    requires Halving(s, unusedHosts, pg, booking, splittedList, bs, st, o0, free0) && g0 in booking.pattern.groups
    modifies booking`order, booking.pattern.members`count, s.hosts`freeDisc, s.hosts`availableRAM, s.hosts`bookedMembers
    ensures st'.hostOf == st.hostOf && st'.count == st.count
    ensures !ok ==> bs' == bs && st' == st && Halving(s, unusedHosts, pg, booking, splittedList, bs, st, o0, free0)
    ensures ok ==> fresh(half) && bs' == bs + [half] && half.host == null
    ensures ok ==> Halving(s, unusedHosts, pg, booking, splittedList + [half], bs', st', o0, free0)
    ensures ok ==> 0 <= Amount(OrderIn(st'.order, booking), g0) < Amount(OrderIn(st.order, booking), g0)
    ensures ok ==> LackersKept(st, st')
    ensures ok <==> CanHalve(s, st, booking)
    ensures ok ==> half !in st.order && half.pattern == booking.pattern && IsSplit(st, st', booking, half)
  {
    hide InBalance, Halves, NothingLost, HostsCompatible, Unused, SplitStep, Booking.Splittable, OrderOk, Amount,
      OrderIn, FullHalves, LackersKept, CanHalve;
    BookingsKnown(s, bs, st);
    BookingOf(booking, splittedList, bs, st, o0, free0);
    HostKnown(s, bs, st, booking);
    SplittableIff(s, bs, st, booking);
    var nb;
    nb, bs', st' := SplitPlaced(s, booking, bs, st);
    ok, half := nb != null, booking;
    if nb != null {
      half := nb;
      SpreadStep(s, pg, unusedHosts, booking, half, g0, splittedList, bs, st, o0, free0);
      HostKnown(s, bs', st', half);
    }
  }

  /** The hosts that have no booking. */
  ghost function EmptyHosts(s: Setup, st: State): set<Host> {
    set h | h in s.hosts && h in st.hosting && st.hosting[h] == []
  }

  /** No half of a placed booking that is not in the list fits on an empty host. */
  ghost predicate SpreadBut(s: Setup, st: State, list: seq<Booking>) {
    forall b :: b in st.hostOf && b !in list ==>
      b in st.order && NoHalfFits(s, st, EmptyHosts(s, st), b.pattern, st.order[b])
  }

  /** No empty host is left that takes a half that a placed booking allows. */
  ghost predicate SpreadOut(s: Setup, st: State) {
    SpreadBut(s, st, [])
  }

  lemma NoHalfFitsStill(s: Setup, st: State, st': State, hosts: set<Host>, hosts': set<Host>, p: HostPattern, o: Order)
    requires NoHalfFits(s, st, hosts, p, o) && hosts' <= hosts
    requires forall h :: h in hosts' ==> h in st.free && h in st'.free && st'.free[h] == st.free[h]
    ensures NoHalfFits(s, st', hosts', p, o)
  {
    hide AllowsHalf, UseOf, Use.NonNegative, NextHalf;
    forall k: nat | AllowsHalf(s, p, o, k)
      ensures NoneTakes(st', hosts', p, o, k)
    {
      assert NoneTakes(st, hosts, p, o, k);
    }
  }

  lemma AllListed(s: Setup, st: State, list: seq<Booking>)
    requires forall b :: b in st.hostOf ==> b in list
    ensures SpreadBut(s, st, list)
  {
  }

  /** When no host is empty, nothing more is asked. */
  lemma NoneEmpty(s: Setup, bs: seq<Booking>, st: State)
    requires Balanced(s, bs, st) && EmptyHosts(s, st) == {}
    ensures SpreadOut(s, st)
  {
    hide HostOk, OrderOk, CountsOk, AllowsHalf, EmptyHosts;
    HostedIn(s, bs, st);
  }

  lemma SameEmpty(s: Setup, st: State, st': State)
    requires st'.hosting == st.hosting
    ensures EmptyHosts(s, st') == EmptyHosts(s, st)
  {
  }

  /** The booking could not be spread: it is off the list. */
  lemma SpreadNot(s: Setup, bs: seq<Booking>, st: State, st': State, list: seq<Booking>, rest: seq<Booking>, b: Booking)
    requires Balanced(s, bs, st) && SpreadBut(s, st, list) && (forall c :: c in list ==> c == b || c in rest)
    requires AsItWas(bs, st, st') && b in st.order && NoHalfFits(s, st, EmptyHosts(s, st), b.pattern, st.order[b])
    ensures SpreadBut(s, st', rest) && EmptyHosts(s, st') == EmptyHosts(s, st)
  {
    hide HostOk, OrderOk, CountsOk, NoHalfFits;
    HostedIn(s, bs, st);
    forall c | c in st'.hostOf && c !in rest
      ensures c in st'.order && NoHalfFits(s, st', EmptyHosts(s, st'), c.pattern, st'.order[c])
    {
      NoHalfFitsStill(s, st, st', EmptyHosts(s, st), EmptyHosts(s, st'), c.pattern, st.order[c]);
    }
  }

  lemma SpreadMore(s: Setup, bs: seq<Booking>, st: State, st': State, list: seq<Booking>, rest: seq<Booking>,
                   b: Booking, k: nat, moved: Booking, h: Host)
    requires Balanced(s, bs, st) && SpreadBut(s, st, list) && (forall c :: c in list ==> c == b || c in rest)
    requires GaveHalf(s, EmptyHosts(s, st), bs, st, st', b, k, moved, h)
    ensures SpreadBut(s, st', rest + [moved, b]) && EmptyHosts(s, st') == EmptyHosts(s, st) - {h}
  {
    hide HostOk, OrderOk, CountsOk, NoHalfFits, HalfFits, NextHalf, AllowsHalf, NoneTakes, Amount;
    HostedIn(s, bs, st);
    EmptyLeft(s, st, st', h, moved);
    forall c | c in st'.hostOf && c !in rest + [moved, b]
      ensures c in st'.order && NoHalfFits(s, st', EmptyHosts(s, st'), c.pattern, st'.order[c])
    {
      assert c != moved && c != b && c !in rest;
      NoHalfFitsStill(s, st, st', EmptyHosts(s, st), EmptyHosts(s, st'), c.pattern, st.order[c]);
    }
  }

  lemma EmptyLeft(s: Setup, st: State, st': State, h: Host, moved: Booking)
    requires h in EmptyHosts(s, st) && st'.hosting == st.hosting[h := [moved]]
    ensures EmptyHosts(s, st') == EmptyHosts(s, st) - {h}
  {
  }

  /** Placed bookings stay placed. */
  lemma HostsKept(s: Setup, unused: set<Host>, bs: seq<Booking>, st: State, st': State, b: Booking, k: nat,
                  moved: Booking, h: Host?)
    requires h == null ==> AsItWas(bs, st, st')
    requires h != null ==> GaveHalf(s, unused, bs, st, st', b, k, moved, h)
    ensures (forall c :: c in st.hostOf ==> c in st'.hostOf) && (h != null ==> h in unused)
  {
  }

  /** Spreads the placed bookings as long as hosts are unused and bookings can be halved.
      Which booking comes next is left open. */
  method Redistribute(ghost s: Setup, unused: set<Host>, finalBookings: seq<Booking>, ghost bs: seq<Booking>,
                      ghost st: State, ghost pg: seq<set<nat>>)
    returns (ghost bs': seq<Booking>, ghost st': State)
    requires Spread(s, unused, pg, bs, st) && unused == EmptyHosts(s, st) && AllPlaced(finalBookings, bs, st)
    requires forall b :: b in st.hostOf ==> b in finalBookings
    modifies SetOf(finalBookings)`order, s.all`count, s.hosts
    ensures InBalance(s, bs', st') && NothingLost(bs', st', []) && HostsCompatible(s, pg, st')
    ensures bs <= bs' && (forall b :: b in bs' ==> b in bs || fresh(b)) && st'.count == st.count
    ensures LackersKept(st, st') && SpreadOut(s, st')
  {
    hide InBalance, NothingLost, HostsCompatible, Unused, AllPlaced, LackersKept, SpreadBut, EmptyHosts, NoHalfFits,
      AsItWas, GaveHalf, Balanced;
    LackersSelf(st);
    bs', st' := bs, st;
    var unusedHosts, sortedBookings := unused, finalBookings;
    AllListed(s, st, finalBookings);
    while unusedHosts != {} && sortedBookings != []
      invariant Spread(s, unusedHosts, pg, bs', st') && unusedHosts == EmptyHosts(s, st')
      invariant AllPlaced(sortedBookings, bs', st') && SpreadBut(s, st', sortedBookings)
      invariant bs <= bs' && (forall b :: b in bs' ==> b in bs || fresh(b)) && st'.count == st.count
      invariant LackersKept(st, st') && forall b :: b in sortedBookings ==> b in finalBookings || fresh(b)
      decreases |unusedHosts|, |sortedBookings|
    {
      var i :| 0 <= i < |sortedBookings|;
      var booking, rest := sortedBookings[i], sortedBookings[..i] + sortedBookings[i + 1..];
      assert booking in sortedBookings && forall b :: b in rest ==> b in sortedBookings;
      PlacedAt(sortedBookings, i, bs', st');
      HostKnown(s, bs', st', booking);
      BalancedIn(s, bs', st');
      ghost var bs1, st1, k := bs', st', 0;
      EmptyKnown(s, st1);
      var foundHost, moved;
      foundHost, moved, bs', st', k := TrySpread(s, unusedHosts, booking, bs', st', pg);
      LackersThrough(st, st1, st');
      HostsKept(s, unusedHosts, bs1, st1, st', booking, k, moved, foundHost);
      StillPlaced(rest, booking, moved, bs1, st1, bs', st');
      if foundHost != null {
        SpreadMore(s, bs1, st1, st', sortedBookings, rest, booking, k, moved, foundHost);
        unusedHosts := unusedHosts - {foundHost};
        sortedBookings := rest + [moved, booking];
      } else {
        SpreadNot(s, bs1, st1, st', sortedBookings, rest, booking);
        sortedBookings := rest;
      }
    }
    if unusedHosts == {} {
      BalancedIn(s, bs', st');
      NoneEmpty(s, bs', st');
    }
  }

  lemma EmptyKnown(s: Setup, st: State)
    ensures EmptyHosts(s, st) <= s.hosts && Unused(EmptyHosts(s, st), st)
  {
  }

  lemma PlacedAt(list: seq<Booking>, i: nat, bs: seq<Booking>, st: State)
    requires AllPlaced(list, bs, st) && i < |list|
    ensures list[i] in bs && list[i] in st.hostOf && AllPlaced(list[..i] + list[i + 1..], bs, st)
  {
  }

  lemma StillPlaced(list: seq<Booking>, booking: Booking, moved: Booking, bs: seq<Booking>, st: State,
                    bs': seq<Booking>, st': State)
    requires AllPlaced(list, bs, st) && bs <= bs' && booking in bs && booking in st.hostOf && moved in bs'
    requires moved in st'.hostOf
    requires forall b :: b in st.hostOf ==> b in st'.hostOf
    ensures AllPlaced(list, bs', st') && AllPlaced(list + [moved, booking], bs', st')
  {
  }
}
