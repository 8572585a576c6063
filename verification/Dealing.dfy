/** Generating the bookings of a pattern: how the members of its groups are dealt out. */
module Dealing {
  import opened Arith
  import opened Groups
  import opened Bookings
  import opened Ledger
  import opened Steps

  function CeilDiv(a: int, b: int): int
    requires b > 0
  {
    (a + b - 1) / b
  }

  lemma CeilDivBounds(a: int, b: int)
    requires b > 0
    ensures a <= CeilDiv(a, b) * b < a + b
  {
    var q := (a + b - 1) / b;
    assert a + b - 1 == q * b + (a + b - 1) % b;
  }

  /** With at least ceil(size / limit) bookings, an even share is within the limit. */
  lemma ShareWithinLimit(size: int, limit: int, n: int)
    requires size > 0 && limit > 0 && n >= CeilDiv(size, limit)
    ensures n > 0 && 0 < CeilDiv(size, n) <= limit && CeilDiv(size, n) * n >= size
  {
    CeilDivBounds(size, limit);
    MulOrder(n, CeilDiv(size, limit), limit);
    if n <= 0 { MulOrder(n, 0, limit); }
    CeilDivBounds(size, n);
    var t := CeilDiv(size, n);
    if t > limit { MulOrder(t, limit + 1, n); }
    if t <= 0 { MulOrder(t, 0, n); }
  }

  /** A group's own limits do not contradict each other. */
  ghost predicate Consistent(g: Group)
    reads g`minNum, g`maxNum
  {
    g.maxNum != None ==> Least(g) <= g.maxNum.value
  }

  /** How many of count members one booking takes. */
  function Share(count: int, least: int, target: int): int {
    if count <= 0 then 0 else Max(least, Min(count, target))
  }

  /** A new booking of the pattern, of groups that had was members each: it has a share of each
      group listed, unless too few members of one of them were left. */
  ghost predicate Made(ok: bool, booking: Booking, fullGroups: seq<Group>, target: map<Group, int>,
                       was: map<Group, int>, least: map<Group, int>)
    reads booking, booking.pattern.members
  {
    && booking.WithinMax() && booking.order.Keys == booking.pattern.members <= was.Keys * least.Keys
    && (forall g :: g in fullGroups ==> g in booking.pattern.members && g in target)
    && (forall g :: g in booking.pattern.members ==>
         0 <= g.count == was[g] - booking.order[g] && booking.order[g] >= 0 && Enough(booking.order[g], least[g]))
    && (ok <==> forall g :: g in fullGroups ==> Enough(was[g], least[g]))
    && (ok ==> forall g :: g in fullGroups ==> booking.order[g] == Share(was[g], least[g], target[g]))
    && (forall g :: g in booking.pattern.members && g !in fullGroups ==> booking.order[g] == 0)
  }

  /** The groups' remaining counts and least numbers. */
  ghost predicate Recorded(members: set<Group>, was: map<Group, int>, least: map<Group, int>)
    reads members`count, members`minNum, members`maxNum
  {
    forall g :: g in members ==>
      g in was && g in least && g.count == was[g] >= 0 && least[g] == Least(g) && Consistent(g)
  }

  /** Fills a new booking of the pattern with a share of each group listed; fails exactly when
      too few members of such a group are left. */
  method MakeBooking(pattern: HostPattern, fullGroups: seq<Group>, target: map<Group, int>,
                     ghost was: map<Group, int>, ghost least: map<Group, int>)
    returns (ok: bool, booking: Booking)
    requires pattern.Valid() && NoRepeats(fullGroups)
    requires forall g :: g in fullGroups ==> g in pattern.members && g in target
    requires Recorded(pattern.members, was, least)
    requires forall g :: g in fullGroups ==> 0 < target[g] && (g.maxNum != None ==> target[g] <= g.maxNum.value)
    modifies pattern.members`count
    ensures fresh(booking) && booking.pattern == pattern && booking.host == null
    ensures Made(ok, booking, fullGroups, target, was, least)
  {
    hide Share, Enough, Consistent, Filled, MembersOk, Booking.WithinMax;
    booking := new Booking(pattern);
    FilledNone(pattern.groups, was, least, target);
    NoneBooked(booking, was, least);
    ghost var i;
    ok, i := FillGroups(booking, fullGroups, target, was, least);
    AllMade(ok, booking, fullGroups, i, target, was, least);
  }

  lemma AllMade(ok: bool, booking: Booking, fullGroups: seq<Group>, i: nat, target: map<Group, int>,
                was: map<Group, int>, least: map<Group, int>)
    requires i <= |fullGroups| && Filled(fullGroups[..i], booking.order, was, least, target)
    requires (ok <==> i == |fullGroups|)
    requires !ok ==> fullGroups[i] in was && fullGroups[i] in least && !Enough(was[fullGroups[i]], least[fullGroups[i]])
    requires booking.Shape() && MembersOk(booking.pattern.members, booking.order, was)
    requires forall g :: g in booking.pattern.members ==> g in least && least[g] == Least(g)
    requires forall g :: g in fullGroups ==> g in booking.pattern.members && g in target
    ensures Made(ok, booking, fullGroups, target, was, least)
  {
    hide Least, Enough, Share, MembersOk, Filled, Booking.WithinMax;
    MembersWithin(booking, was);
    FilledOnly(fullGroups, i, booking.order, was, least, target);
  }

  /** Books the groups' shares, up to the first that has too few members left. */
  method FillGroups(booking: Booking, fullGroups: seq<Group>, target: map<Group, int>,
                    ghost was: map<Group, int>, ghost least: map<Group, int>)
    returns (ok: bool, ghost i: nat)
    requires booking.host == null && booking.Shape() && MembersOk(booking.pattern.members, booking.order, was)
    requires Filled([], booking.order, was, least, target)
    requires NoRepeats(fullGroups) && forall g :: g in fullGroups ==> g in booking.pattern.members && g in target
    requires Recorded(booking.pattern.members, was, least)
    requires forall g :: g in fullGroups ==> 0 < target[g] && (g.maxNum != None ==> target[g] <= g.maxNum.value)
    modifies booking`order, booking.pattern.members`count
    ensures i <= |fullGroups| && Filled(fullGroups[..i], booking.order, was, least, target)
    ensures booking.Shape() && MembersOk(booking.pattern.members, booking.order, was)
    ensures ok <==> i == |fullGroups|
    ensures !ok ==> fullGroups[i] in was && fullGroups[i] in least && !Enough(was[fullGroups[i]], least[fullGroups[i]])
  {
    hide Share, Least, Enough, Consistent, Filled, MembersOk, Booking.WithinMax, NoRepeats;
    ok := true;
    assert fullGroups[..0] == [];
    var k := 0;
    while k < |fullGroups|
      invariant 0 <= k <= |fullGroups| && booking.Shape() && MembersOk(booking.pattern.members, booking.order, was)
      invariant Filled(fullGroups[..k], booking.order, was, least, target)
    {
      var g := fullGroups[k];
      OneMore(fullGroups, k);
      assert fullGroups[..k + 1] == fullGroups[..k] + [g];
      ghost var o := booking.order;
      NotFilled(fullGroups[..k], g, o, was, least, target);
      MembersParts(booking.pattern.members, g, o, was);
      ghost var n;
      ok, n := FillGroup(booking, g, target[g]);
      MembersJoin(booking.pattern.members, g, o, n, was);
      if !ok {
        return ok, k;
      }
      FilledMore(fullGroups[..k], g, o, n, was, least, target);
      k := k + 1;
    }
    i := k;
  }

  /** The groups gs got their shares, no others anything. */
  ghost predicate Filled(gs: seq<Group>, o: Order, was: map<Group, int>,
                         least: map<Group, int>, target: map<Group, int>) {
    && (forall g :: g in gs ==> g in o && g in was && g in least && g in target)
    && (forall g :: g in gs ==> Enough(was[g], least[g]) && o[g] == Share(was[g], least[g], target[g]))
    && forall g :: g in o && g !in gs ==> o[g] == 0
  }

  lemma FilledNone(groups: seq<Group>, was: map<Group, int>, least: map<Group, int>, target: map<Group, int>)
    ensures Filled([], Zeros(groups), was, least, target)
  {
  }

  lemma NoneBooked(booking: Booking, was: map<Group, int>, least: map<Group, int>)
    requires booking.pattern.Valid() && booking.order == Zeros(booking.pattern.groups)
    requires Recorded(booking.pattern.members, was, least)
    ensures MembersOk(booking.pattern.members, booking.order, was)
  {
  }

  lemma NotFilled(gs: seq<Group>, g: Group, o: Order, was: map<Group, int>,
                  least: map<Group, int>, target: map<Group, int>)
    requires Filled(gs, o, was, least, target) && g !in gs && g in o
    ensures o[g] == 0
  {
  }

  lemma FilledMore(gs: seq<Group>, g: Group, o: Order, n: int, was: map<Group, int>,
                   least: map<Group, int>, target: map<Group, int>)
    requires Filled(gs, o, was, least, target) && g !in gs && g in o && g in was && g in least && g in target
    requires Enough(was[g], least[g]) && n == Share(was[g], least[g], target[g])
    ensures Filled(gs + [g], o[g := n], was, least, target)
  {
    hide Share, Enough;
  }

  ghost predicate MembersOk(members: set<Group>, o: Order, was: map<Group, int>)
    reads members`count, members`maxNum, members`minNum
  {
    forall g {:trigger g in members} :: g in members ==> g in was && MemberOk(g, o, was[g])
  }

  lemma MembersParts(members: set<Group>, g: Group, o: Order, was: map<Group, int>)
    requires MembersOk(members, o, was) && g in members
    ensures MembersOk(members - {g}, o, was) && g in was && MemberOk(g, o, was[g])
  {
  }

  lemma MembersJoin(members: set<Group>, g: Group, o: Order, n: int, was: map<Group, int>)
    requires MembersOk(members - {g}, o, was) && g in members && g in was && MemberOk(g, o[g := n], was[g])
    ensures MembersOk(members, o[g := n], was)
  {
    hide Least, Enough;
    forall k | k in members
      ensures k in was && MemberOk(k, o[g := n], was[k])
    {
      assert k == g || k in members - {g};
    }
  }

  lemma MembersWithin(booking: Booking, was: map<Group, int>)
    requires booking.Shape() && MembersOk(booking.pattern.members, booking.order, was)
    ensures booking.WithinMax()
    ensures forall g :: g in booking.pattern.members ==>
      g in was && 0 <= booking.order[g] && g.count == was[g] - booking.order[g] >= 0
      && Enough(booking.order[g], Least(g))
  {
    hide Least, Enough;
  }

  lemma FilledOnly(gs: seq<Group>, i: nat, o: Order, was: map<Group, int>,
                   least: map<Group, int>, target: map<Group, int>)
    requires i <= |gs| && Filled(gs[..i], o, was, least, target)
    ensures forall g :: g in o && g !in gs ==> o[g] == 0
    ensures i == |gs| ==> forall g :: g in gs ==> g in o && g in was && g in least && g in target
    ensures i == |gs| ==> forall g :: g in gs ==> Enough(was[g], least[g]) && o[g] == Share(was[g], least[g], target[g])
  {
    hide Share, Enough;
    if i == |gs| { assert gs[..i] == gs; }
  }

  /** Books a share of a group that is not booked here yet. */
  method FillGroup(booking: Booking, g: Group, target: int) returns (ok: bool, ghost n: int)
    requires booking.Shape() && booking.host == null && g in booking.pattern.members && booking.order[g] == 0
    requires g.count >= 0 && Consistent(g) && target > 0 && (g.maxNum != None ==> target <= g.maxNum.value)
    modifies booking`order, g`count
    ensures booking.order == old(booking.order)[g := n] && MemberOk(g, old(booking.order)[g := n], old(g.count))
    ensures ok <==> Enough(old(g.count), Least(g))
    ensures ok ==> n == Share(old(g.count), Least(g), target)
    ensures !ok ==> booking.order == old(booking.order)
  {
    ok, n := true, 0;
    if g.count > 0 {
      ok := booking.BookGroup(g, target);
      n := booking.order[g];
    }
  }

  ghost predicate MemberOk(g: Group, o: Order, was: int)
    reads g`count, g`maxNum, g`minNum
  {
    && g in o && 0 <= o[g] && g.count == was - o[g] && g.count >= 0 && Enough(o[g], Least(g))
    && (g.maxNum != None ==> o[g] <= g.maxNum.value)
  }

  /** What a pattern needs to be booked: it is within the setup and its groups' limits are
      consistent. */
  ghost predicate Bookable(s: Setup, pattern: HostPattern)
    reads pattern.members`minNum, pattern.members`maxNum
  {
    pattern in s.patterns && pattern.Valid() && pattern.groups != [] && pattern.members <= s.all
    && forall g :: g in pattern.members ==> Consistent(g)
  }

  /** A new booking in the ledger; also when it could not be filled. */
  method NewBooking(ghost s: Setup, pattern: HostPattern, fullGroups: seq<Group>, target: map<Group, int>,
                    ghost bs: seq<Booking>, ghost st: State)
    returns (ok: bool, b: Booking, ghost bs': seq<Booking>, ghost st': State)
    requires InBalance(s, bs, st) && Bookable(s, pattern) && NoRepeats(fullGroups)
    requires forall g :: g in fullGroups ==> g in pattern.members && g in target && 0 < target[g]
    requires forall g :: g in fullGroups ==> s.limit[g] != None ==> target[g] <= s.limit[g].value
    requires pattern in s.even ==> forall g :: g in pattern.members ==> g in fullGroups && Left(st, g) >= s.least[g]
    modifies pattern.members`count
    ensures fresh(b) && b !in bs && b.pattern == pattern && b.host == null && bs' == bs + [b]
    ensures st' == BookStep(st, b, b.order) && InBalance(s, bs', st')
    ensures forall g :: g in s.all ==> g in st.count && g in st'.count
    ensures b !in st.hostOf && s.Valid()
    ensures ok <==> forall g :: g in fullGroups ==> Enough(st.count[g], s.least[g])
    ensures ok ==> forall g :: g in fullGroups ==>
      g in b.order && b.order[g] == Share(st.count[g], s.least[g], target[g])
    ensures ok ==> forall g :: g in fullGroups ==> st'.count[g] == st.count[g] - b.order[g]
    ensures forall g :: g in s.all && g !in fullGroups ==> Left(st', g) == Left(st, g)
  {
    hide Fits, OrdersAgree, HostsAgree, HostingAgrees, FreeAgrees, CountsAgree, Balanced, OrderOk, Booking.WithinMax,
      BookStep, Left, Share, Enough, Least, Consistent, CountsOf, Recorded;
    BookingsKnown(s, bs, st);
    CountsParts(s, st, pattern.members);
    AllRecorded(s, bs, st, pattern);
    ok, b := MakeBooking(pattern, fullGroups, target, st.count, s.least);
    bs', st' := bs + [b], BookStep(st, b, b.order);
    MadeInBalance(s, bs, st, b, ok, fullGroups, target);
    AfterBooking(s, st, b, fullGroups);
  }

  lemma AllRecorded(s: Setup, bs: seq<Booking>, st: State, pattern: HostPattern)
    requires InBalance(s, bs, st) && Bookable(s, pattern)
    ensures s.Valid() && st.count.Keys == s.all && Recorded(pattern.members, st.count, s.least) && Balanced(s, bs, st)
    ensures forall g :: g in pattern.members ==> g.maxNum == s.limit[g]
  {
    hide Balanced, Least, Consistent;
    MembersInBalance(s, bs, st, pattern.members);
  }

  /** The booking just made is in the ledger. */
  lemma MadeInBalance(s: Setup, bs: seq<Booking>, st: State, b: Booking, ok: bool,
                      fullGroups: seq<Group>, target: map<Group, int>)
    requires Fits(s) && OrdersAgree(st.order) && HostsAgree(st.order.Keys, st.hostOf) && HostingAgrees(s, st.hosting)
    requires FreeAgrees(s, st.free) && CountsOf(s.all - b.pattern.members, st.count) && st.count.Keys == s.all
    requires Balanced(s, bs, st)
    requires b !in bs && b !in st.order && b !in st.hostOf && b.host == null
    requires b.pattern in s.patterns && b.pattern.groups != [] && b.pattern.members <= s.all && s.Valid()
    requires Made(ok, b, fullGroups, target, st.count, s.least) && forall g :: g in fullGroups ==> target[g] > 0
    requires b.pattern in s.even ==> forall g :: g in b.pattern.members ==> g in fullGroups && Left(st, g) >= s.least[g]
    ensures InBalance(s, bs + [b], BookStep(st, b, b.order))
  {
    hide Fits, OrdersAgree, HostsAgree, HostingAgrees, FreeAgrees, CountsAgree, Balanced, OrderOk, Booking.WithinMax,
      BookStep, Left, Share, Enough, Least, Consistent, CountsOf;
    CountsNonNegative(s, bs, st);
    NewOrderOk(s, b, st, fullGroups, target, ok);
    BookKeeps(s, bs, st, b, b.order);
    AfterBooking(s, st, b, fullGroups);
    CountsBooked(s, st, b);
    AgreeInBalance(s, bs + [b], BookStep(st, b, b.order));
  }

  lemma CountsNonNegative(s: Setup, bs: seq<Booking>, st: State)
    requires Balanced(s, bs, st)
    ensures st.count.Keys == s.all && forall g :: g in s.all ==> st.count[g] >= 0
  {
  }

  lemma CountsParts(s: Setup, st: State, members: set<Group>)
    requires CountsAgree(s, st.count) && members <= s.all
    ensures CountsOf(s.all - members, st.count) && CountsOf(members, st.count) && st.count.Keys == s.all
  {
  }

  lemma CountsBooked(s: Setup, st: State, b: Booking)
    requires st.count.Keys == s.all && b.pattern.members <= s.all && CountsOf(s.all - b.pattern.members, st.count)
    requires b.order.Keys == b.pattern.members
    requires forall g :: g in b.pattern.members ==> g.count == st.count[g] - b.order[g]
    ensures CountsAgree(s, BookStep(st, b, b.order).count)
  {
    forall g | g in s.all
      ensures g.count == BookStep(st, b, b.order).count[g]
    {
      assert g in b.pattern.members || g in s.all - b.pattern.members;
    }
  }

  lemma AfterBooking(s: Setup, st: State, b: Booking, fullGroups: seq<Group>)
    requires OrdersAgree(st.order) && HostsAgree(st.order.Keys, st.hostOf) && b !in st.hostOf && b.host == null
    requires b !in st.order
    requires forall g :: g in b.order && g !in fullGroups ==> b.order[g] == 0
    ensures var st' := BookStep(st, b, b.order);
      && st'.hostOf == st.hostOf && st'.hosting == st.hosting && st'.free == st.free && st'.count.Keys == st.count.Keys
      && OrdersAgree(st'.order) && HostsAgree(st'.order.Keys, st'.hostOf)
      && (forall g :: g in st.count ==> st'.count[g] == st.count[g] - Amount(b.order, g))
      && forall g :: g !in fullGroups ==> Left(st', g) == Left(st, g)
  {
  }

  lemma MembersInBalance(s: Setup, bs: seq<Booking>, st: State, members: set<Group>)
    requires InBalance(s, bs, st) && members <= s.all
    ensures forall g :: g in members ==> g in s.all && g.count >= 0 && g.count == st.count[g]
    ensures forall g :: g in members ==> g.maxNum == s.limit[g] && Least(g) == s.least[g]
    ensures st.order.Keys == SetOf(bs) && forall b :: b in st.hostOf ==> b in bs
    ensures forall g :: g in s.all ==> st.count[g] >= 0
  {
    forall b | b in st.hostOf
      ensures b in bs
    {
      assert Placed(s, bs, st, b);
    }
  }

  lemma NewOrderOk(s: Setup, b: Booking, st: State, fullGroups: seq<Group>, target: map<Group, int>, ok: bool)
    requires Fits(s) && b.WithinMax() && b.pattern in s.patterns && b.pattern.groups != [] && b.pattern.members <= s.all
    requires st.count.Keys == s.all
    requires forall g :: g in b.pattern.members ==> b.order[g] <= st.count[g] && Enough(b.order[g], s.least[g])
    requires forall g :: g in s.all ==> st.count[g] >= 0
    requires ok <==> forall g :: g in fullGroups ==> g in s.all && Enough(st.count[g], s.least[g])
    requires forall g :: g in fullGroups ==> g in b.order && g in target && target[g] > 0
    requires ok ==> forall g :: g in fullGroups ==> b.order[g] == Share(st.count[g], s.least[g], target[g])
    requires b.pattern in s.even ==> forall g :: g in b.pattern.members ==> g in fullGroups && Left(st, g) >= s.least[g]
    ensures OrderOk(s, b, b.order) && forall g :: g in s.all ==> Amount(b.order, g) <= st.count[g]
  {
    hide Least;
    if b.pattern in s.even {
      assert ok;
      assert forall g :: g in b.pattern.members ==> b.order[g] > 0;
    }
  }

  /** The most members of a group that one booking may have. */
  function LimitOf(size: int, limit: Option<Positive>): int {
    if limit == None then size else Min(limit.value, size)
  }

  /** How many bookings the group with the tightest limit needs. */
  function Needed(gs: seq<Group>, size: map<Group, int>, limit: map<Group, Option<Positive>>): (n: nat)
    requires forall g :: g in gs ==> g in size && g in limit && size[g] > 0
    ensures forall g :: g in gs ==> n > 0 && n >= CeilDiv(size[g], LimitOf(size[g], limit[g]))
  {
    if gs == [] then 0
    else
      var g := gs[|gs| - 1];
      assert gs == gs[..|gs| - 1] + [g];
      var k := CeilDiv(size[g], LimitOf(size[g], limit[g]));
      ShareWithinLimit(size[g], LimitOf(size[g], limit[g]), k);
      Max(Needed(gs[..|gs| - 1], size, limit), k)
  }

  /** That number, for the groups as they are; fails on an empty group. */
  method MinBookings(fullGroups: seq<Group>, ghost size: map<Group, int>, ghost limit: map<Group, Option<Positive>>)
    returns (minBookings: int)
    requires forall g :: g in fullGroups ==> g in size && g in limit && g.count == size[g] >= 0 && g.maxNum == limit[g]
    ensures (exists g :: g in fullGroups && size[g] == 0) ==> minBookings == 0
    ensures (forall g :: g in fullGroups ==> size[g] > 0) ==> minBookings == Needed(fullGroups, size, limit)
  {
    hide CeilDiv;
    minBookings := 0;
    var i := 0;
    while i < |fullGroups|
      invariant 0 <= i <= |fullGroups|
      invariant forall g :: g in fullGroups[..i] ==> size[g] > 0
      invariant minBookings == Needed(fullGroups[..i], size, limit)
    {
      var g := fullGroups[i];
      assert g in fullGroups;
      if GetMax(g, g.count) == 0 {
        return 0;
      }
      assert fullGroups[..i + 1][..i] == fullGroups[..i] && fullGroups[..i + 1] == fullGroups[..i] + [g];
      minBookings := Max(minBookings, CeilDiv(g.count, GetMax(g, g.count)));
      i := i + 1;
    }
    assert fullGroups[..i] == fullGroups;
  }

  /** Sharing out evenly, each booking gets enough of each group, the last one too. */
  ghost predicate DealtEvenly(gs: seq<Group>, size: map<Group, int>,
                              limit: map<Group, Option<Positive>>, least: map<Group, Positive>) {
    && (forall g :: g in gs ==> g in size && g in limit && g in least && size[g] > 0)
    && var n := Needed(gs, size, limit);
      forall g :: g in gs ==> (n - 1) * Max(least[g], CeilDiv(size[g], n)) + least[g] <= size[g]
  }

  lemma {:induction false} NeedAttained(gs: seq<Group>, size: map<Group, int>, limit: map<Group, Option<Positive>>)
    returns (g: Group)
    requires gs != [] && forall g :: g in gs ==> g in size && g in limit && size[g] > 0
    ensures g in gs && Needed(gs, size, limit) == CeilDiv(size[g], LimitOf(size[g], limit[g]))
  {
    hide CeilDiv;
    var n := |gs| - 1;
    assert gs == gs[..n] + [gs[n]];
    g := gs[n];
    if n > 0 && Needed(gs[..n], size, limit) > CeilDiv(size[g], LimitOf(size[g], limit[g])) {
      g := NeedAttained(gs[..n], size, limit);
    }
  }

  lemma FirstIn<T>(s: seq<T>)
    ensures s != [] ==> s[0] in SetOf(s)
  {
  }

  /** The order in which the groups are listed does not matter. */
  lemma SameClassSameNeed(gs: seq<Group>, gs': seq<Group>, size: map<Group, int>, limit: map<Group, Option<Positive>>)
    requires SetOf(gs) == SetOf(gs') && forall g :: g in gs ==> g in size && g in limit && size[g] > 0
    ensures forall g :: g in gs <==> g in gs'
    ensures Needed(gs, size, limit) == Needed(gs', size, limit)
  {
    hide CeilDiv, Needed;
    FirstIn(gs);
    FirstIn(gs');
    assert forall g :: g in gs' <==> g in SetOf(gs);
    assert forall g :: g in gs <==> g in SetOf(gs');
    if gs != [] {
      var g := NeedAttained(gs, size, limit);
      var k := NeedAttained(gs', size, limit);
    }
  }

  lemma SameClassSameDeal(gs: seq<Group>, gs': seq<Group>, size: map<Group, int>,
                          limit: map<Group, Option<Positive>>, least: map<Group, Positive>)
    requires SetOf(gs) == SetOf(gs') && DealtEvenly(gs, size, limit, least)
    ensures DealtEvenly(gs', size, limit, least)
  {
    hide CeilDiv, Needed;
    SameClassSameNeed(gs, gs', size, limit);
  }

  lemma SameClassDealable(gs: seq<Group>, gs': seq<Group>, size: map<Group, int>,
                          limit: map<Group, Option<Positive>>, least: map<Group, Positive>)
    requires SetOf(gs) == SetOf(gs') && Dealable(gs, size, limit, least)
    ensures Dealable(gs', size, limit, least)
  {
    hide CeilDiv, Needed, Enough, LeftAfter;
    SameClassSameNeed(gs, gs', size, limit);
  }

  function Left(st: State, g: Group): int {
    if g in st.count then st.count[g] else 0
  }

  /** What the bookings made so far leave behind. */
  ghost predicate Unplaced(bookings: seq<Booking>, pattern: HostPattern, bs: seq<Booking>, st: State) {
    forall b :: b in bookings ==> b in bs && b.pattern == pattern && b !in st.hostOf
  }

  /** What is left when a share was taken i times. */
  function LeftAfter(size: int, share: int, i: int): int {
    Max(0, size - share * i)
  }

  /** No booking finds members of a group left, but fewer than the least number. */
  ghost predicate Dealable(gs: seq<Group>, size: map<Group, int>,
                           limit: map<Group, Option<Positive>>, least: map<Group, Positive>) {
    && (forall g :: g in gs ==> g in size && g in limit && g in least && size[g] > 0)
    && var n := Needed(gs, size, limit);
      forall g, i :: g in gs && 0 <= i < n ==>
        Enough(LeftAfter(size[g], Max(least[g], CeilDiv(size[g], n)), i), least[g])
  }

  /** As many bookings as are needed, each with its share of what the ones before it left. */
  ghost predicate SharedOut(bookings: seq<Booking>, gs: seq<Group>, size: map<Group, int>,
                            limit: map<Group, Option<Positive>>, least: map<Group, Positive>, order: Orders) {
    && (forall g :: g in gs ==> g in size && g in limit && g in least && size[g] > 0)
    && var n := Needed(gs, size, limit);
      |bookings| == n && forall j, g :: 0 <= j < n && g in gs ==>
        var t := CeilDiv(size[g], n);
        Amount(OrderIn(order, bookings[j]), g) == Share(LeftAfter(size[g], Max(least[g], t), j), least[g], t)
  }

  /** Every booking has members of every group. */
  ghost predicate AllCarry(bookings: seq<Booking>, gs: seq<Group>, order: Orders) {
    forall j, g :: 0 <= j < |bookings| && g in gs ==> Amount(OrderIn(order, bookings[j]), g) > 0
  }

  /** Some booking has some of these groups and lacks others. */
  ghost predicate SomeLack(bookings: seq<Booking>, gs: seq<Group>, order: Orders) {
    exists b :: b in bookings && LacksSome(OrderIn(order, b), gs)
  }

  ghost predicate LacksSome(o: Order, gs: seq<Group>) {
    (exists g :: g in gs && Amount(o, g) > 0) && exists g :: g in gs && Amount(o, g) <= 0
  }

  ghost predicate SomeLimit(gs: seq<Group>, limit: map<Group, Option<Positive>>) {
    exists g :: g in gs && g in limit && limit[g] != None
  }

  /** Books all remaining members of the groups listed, in as few bookings as their limits
      allow.  On success none of them is left over, so the code's final top-up loop, which
      would call a method that does not exist, is never entered; and each booking has some of
      each group exactly if they can be dealt out evenly. */
  method BookingGen(ghost s: Setup, pattern: HostPattern, fullGroups: seq<Group>,
                    ghost bs: seq<Booking>, ghost st: State)
    returns (ok: bool, bookings: seq<Booking>, ghost bs': seq<Booking>, ghost st': State)
    requires InBalance(s, bs, st) && Bookable(s, pattern)
    requires fullGroups != [] && NoRepeats(fullGroups) && forall g :: g in fullGroups ==> g in pattern.members
    requires pattern in s.even ==> Evenly(s, pattern, fullGroups, st)
    modifies pattern.members`count
    ensures InBalance(s, bs', st') && Extends(bs, st, bs', st') && bs <= bs'
    ensures (forall b :: b in bs' ==> b in bs || fresh(b))
    ensures ok ==> forall g :: g in fullGroups ==> Left(st', g) == 0
    ensures ok ==> bs' == bs + bookings && Unplaced(bookings, pattern, bs', st') && fresh(bookings)
    ensures forall g :: g in s.all && g !in fullGroups ==> Left(st', g) == Left(st, g)
    ensures s.Valid()
    ensures ok <==> Dealable(fullGroups, st.count, s.limit, s.least)
    ensures (ok && AllCarry(bookings, fullGroups, st'.order)) <==> DealtEvenly(fullGroups, st.count, s.limit, s.least)
    ensures ok ==> SharedOut(bookings, fullGroups, st.count, s.limit, s.least, st'.order)
    ensures ok && !DealtEvenly(fullGroups, st.count, s.limit, s.least) ==>
      SomeLack(bookings, fullGroups, st'.order) && SomeLimit(fullGroups, s.limit)
  {
    hide InBalance, Bookable, CeilDiv, Extends, Unplaced, Left, Needed, SharesLeft, NoRepeats, DealtEvenly, Dealable,
      AllCarry, Dealt, SomeLack, SomeLimit, LimitsConsistent, SharedOut, Evenly, Dealing;
    bs', st', bookings := bs, st, [];
    ExtendsSelf(bs, st);
    LimitsInBalance(s, bs, st, pattern, fullGroups);
    var minBookings := MinBookings(fullGroups, st.count, s.limit);
    if minBookings == 0 {
      NoneToDeal(fullGroups, st.count, s.limit, s.least);
      ok := false;
      return;
    }
    ghost var deal := Deal(fullGroups, st.count, s.limit, s.least, minBookings);
    var target := map g | g in fullGroups :: CeilDiv(g.count, minBookings);
    DealFits(deal, target);
    ok, bookings, bs', st' := DealAll(s, pattern, fullGroups, target, minBookings, deal, bs, st);
  }

  method DealAll(ghost s: Setup, pattern: HostPattern, fullGroups: seq<Group>, target: map<Group, int>,
                 minBookings: int, ghost deal: Deal, ghost bs: seq<Booking>, ghost st: State)
    returns (ok: bool, bookings: seq<Booking>, ghost bs': seq<Booking>, ghost st': State)
    requires InBalance(s, bs, st) && Bookable(s, pattern) && NoRepeats(fullGroups) && s.Valid()
    requires deal == Deal(fullGroups, st.count, s.limit, s.least, minBookings) && deal.Valid(target)
    requires forall g :: g in fullGroups ==>
      g in pattern.members && g in target && 0 < target[g] && Left(st, g) == deal.size[g]
    requires forall g :: g in fullGroups ==> g in s.limit && (s.limit[g] != None ==> target[g] <= s.limit[g].value)
    requires LimitsConsistent(fullGroups, s.limit, s.least)
    requires pattern in s.even ==> Evenly(s, pattern, fullGroups, st)
    modifies pattern.members`count
    ensures InBalance(s, bs', st') && Extends(bs, st, bs', st') && bs <= bs'
    ensures (forall b :: b in bs' ==> b in bs || fresh(b))
    ensures ok ==> forall g :: g in fullGroups ==> Left(st', g) == 0
    ensures ok ==> bs' == bs + bookings && Unplaced(bookings, pattern, bs', st') && fresh(bookings)
    ensures forall g :: g in s.all && g !in fullGroups ==> Left(st', g) == Left(st, g)
    ensures ok <==> Dealable(fullGroups, st.count, s.limit, s.least)
    ensures (ok && AllCarry(bookings, fullGroups, st'.order)) <==> DealtEvenly(fullGroups, st.count, s.limit, s.least)
    ensures ok ==> SharedOut(bookings, fullGroups, st.count, s.limit, s.least, st'.order)
    ensures ok && !DealtEvenly(fullGroups, st.count, s.limit, s.least) ==>
      SomeLack(bookings, fullGroups, st'.order) && SomeLimit(fullGroups, s.limit)
  {
    hide InBalance, Bookable, CeilDiv, Extends, Unplaced, Left, Needed, SharesLeft, NoRepeats, DealtEvenly, Dealable,
      AllCarry, Dealt, SomeLack, SomeLimit, LimitsConsistent, SharedOut, Evenly, Dealing, Added, Deal.Valid;
    bs', st', bookings := bs, st, [];
    SharesStart(st, deal, target);
    DealingStart(s, pattern, deal, target, bs, st);
    while |bookings| < minBookings
      invariant |bookings| <= minBookings && InBalance(s, bs', st') && Bookable(s, pattern)
      invariant Dealing(s, pattern, deal, target, bookings, bs, st, bs', st') && fresh(bookings)
      decreases minBookings - |bookings|
    {
      var b;
      ok, b, bs', st' := DealOnce(s, pattern, fullGroups, target, deal, bookings, bs, st, bs', st');
      bookings := bookings + [b];
      if !ok {
        DealingEnds(s, pattern, deal, target, bookings, bs, st, bs', st');
        return;
      }
    }
    ok := true;
    DealingEnds(s, pattern, deal, target, bookings, bs, st, bs', st');
    AllTaken(s, bs', st', deal, target);
    CarryIff(deal, target, bookings, st'.order);
    SharesAre(deal, target, bookings, st'.order);
    if !DealtEvenly(fullGroups, st.count, s.limit, s.least) {
      SomeLeftOut(deal, target, bookings, st'.order);
    }
  }

  /** Bookings were added since bs0 and st0, each with its shares. */
  ghost predicate Dealing(s: Setup, pattern: HostPattern, d: Deal, target: map<Group, int>, bookings: seq<Booking>,
                          bs0: seq<Booking>, st0: State, bs: seq<Booking>, st: State) {
    && Added(s, pattern, d.gs, bookings, bs0, st0, bs, st)
    && SharesLeft(d, target, st, |bookings|) && Dealt(d, target, bookings, st.order)
  }

  ghost predicate Added(s: Setup, pattern: HostPattern, gs: seq<Group>, bookings: seq<Booking>, bs0: seq<Booking>,
                        st0: State, bs: seq<Booking>, st: State) {
    && Extends(bs0, st0, bs, st) && bs == bs0 + bookings && Unplaced(bookings, pattern, bs, st)
    && forall g :: g in s.all && g !in gs ==> Left(st, g) == Left(st0, g)
  }

  lemma DealingStart(s: Setup, pattern: HostPattern, d: Deal, target: map<Group, int>, bs: seq<Booking>, st: State)
    requires SharesLeft(d, target, st, 0) && Dealt(d, target, [], st.order) && d.Valid(target)
    ensures d.n >= 0
    ensures Dealing(s, pattern, d, target, [], bs, st, bs, st)
  {
    hide SharesLeft, Dealt;
  }

  lemma DealingEnds(s: Setup, pattern: HostPattern, d: Deal, target: map<Group, int>, bookings: seq<Booking>,
                    bs0: seq<Booking>, st0: State, bs: seq<Booking>, st: State)
    requires Added(s, pattern, d.gs, bookings, bs0, st0, bs, st)
      || Dealing(s, pattern, d, target, bookings, bs0, st0, bs, st)
    ensures Extends(bs0, st0, bs, st) && bs0 <= bs && bs == bs0 + bookings && Unplaced(bookings, pattern, bs, st)
    ensures forall b :: b in bs ==> b in bs0 || b in bookings
    ensures forall g :: g in s.all && g !in d.gs ==> Left(st, g) == Left(st0, g)
    ensures Dealing(s, pattern, d, target, bookings, bs0, st0, bs, st) ==>
      SharesLeft(d, target, st, |bookings|) && Dealt(d, target, bookings, st.order)
  {
    hide SharesLeft, Dealt, Extends, Unplaced, Left;
  }

  /** One more booking with its shares. */
  method DealOnce(ghost s: Setup, pattern: HostPattern, fullGroups: seq<Group>, target: map<Group, int>,
                  ghost deal: Deal, ghost bookings: seq<Booking>, ghost bs0: seq<Booking>, ghost st0: State,
                  ghost bs: seq<Booking>, ghost st: State)
    returns (ok: bool, b: Booking, ghost bs': seq<Booking>, ghost st': State)
    requires InBalance(s, bs, st) && Bookable(s, pattern) && NoRepeats(fullGroups) && s.Valid()
    requires deal == Deal(fullGroups, st0.count, s.limit, s.least, deal.n) && |bookings| < deal.n
    requires forall g :: g in fullGroups ==> g in pattern.members && g in target && 0 < target[g]
    requires forall g :: g in fullGroups ==> g in s.limit && (s.limit[g] != None ==> target[g] <= s.limit[g].value)
    requires pattern in s.even ==> Evenly(s, pattern, fullGroups, st0)
    requires Dealing(s, pattern, deal, target, bookings, bs0, st0, bs, st)
    modifies pattern.members`count
    ensures fresh(b) && InBalance(s, bs', st') && Bookable(s, pattern)
    ensures Added(s, pattern, fullGroups, bookings + [b], bs0, st0, bs', st')
    ensures ok ==> Dealing(s, pattern, deal, target, bookings + [b], bs0, st0, bs', st')
    ensures !ok ==>
      !DealtEvenly(fullGroups, st0.count, s.limit, s.least) && !Dealable(fullGroups, st0.count, s.limit, s.least)
  {
    hide InBalance, CeilDiv, Extends, Unplaced, Left, Needed, SharesLeft, NoRepeats, BookStep, DealtEvenly, Dealable,
      Dealt, Evenly, Share, Enough, Consistent;
    EvenRound(s, pattern, deal, target, st0, st, |bookings|);
    ok, b, bs', st' := NewBooking(s, pattern, fullGroups, target, bs, st);
    OneBookingMore(bs0, st0, bs, st, b, b.order, bookings, pattern);
    if ok {
      DealtMore(deal, target, bookings, bs0, bs, st, b, b.order);
      SharesTaken(deal, target, st, st', b.order, |bookings|);
    } else {
      TooFewLeft(deal, target, st, |bookings|);
    }
  }

  /** What a pattern whose groups can be dealt out evenly needs when it is booked. */
  ghost predicate Evenly(s: Setup, pattern: HostPattern, fullGroups: seq<Group>, st: State)
    requires s.Valid()
  {
    (forall g :: g in pattern.members ==> g in fullGroups) && DealtEvenly(fullGroups, st.count, s.limit, s.least)
  }

  /** The groups to be dealt out in n bookings. */
  datatype Deal = Deal(gs: seq<Group>, size: map<Group, int>, limit: map<Group, Option<Positive>>,
                       least: map<Group, Positive>, n: int) {
    ghost predicate Valid(target: map<Group, int>) {
      && n > 0 && target.Keys == SetOf(gs)
      && (forall g :: g in gs ==> g in size && g in limit && g in least && size[g] > 0)
      && n == Needed(gs, size, limit)
      && (forall g :: g in gs ==> target[g] == CeilDiv(size[g], n) > 0 && target[g] * n >= size[g])
    }

    /** What is left of g after i bookings. */
    ghost function After(g: Group, target: map<Group, int>, i: int): int
      requires g in size && g in least && g in target
    {
      LeftAfter(size[g], Max(least[g], target[g]), i)
    }
  }

  lemma NoneToDeal(gs: seq<Group>, size: map<Group, int>,
                   limit: map<Group, Option<Positive>>, least: map<Group, Positive>)
    requires gs != [] && forall g :: g in gs ==> g in size && g in limit && g in least
    requires (forall g :: g in gs ==> size[g] > 0) ==> Needed(gs, size, limit) == 0
    ensures !Dealable(gs, size, limit, least)
    ensures !DealtEvenly(gs, size, limit, least)
  {
    hide CeilDiv;
    assert gs[0] in gs;
  }

  /** The even shares are positive, within the limits, and enough. */
  lemma DealFits(d: Deal, target: map<Group, int>)
    requires d.n > 0 && target.Keys == SetOf(d.gs)
    requires forall g :: g in d.gs ==> g in d.size && g in d.limit && g in d.least && d.size[g] > 0
    requires d.n == Needed(d.gs, d.size, d.limit) && forall g :: g in d.gs ==> target[g] == CeilDiv(d.size[g], d.n)
    ensures d.Valid(target)
    ensures forall g :: g in d.gs ==> d.limit[g] != None ==> target[g] <= d.limit[g].value
  {
    hide CeilDiv, Needed;
    forall g | g in d.gs
      ensures 0 < target[g] && target[g] * d.n >= d.size[g] && (d.limit[g] != None ==> target[g] <= d.limit[g].value)
    {
      ShareWithinLimit(d.size[g], LimitOf(d.size[g], d.limit[g]), d.n);
    }
  }

  /** What is left after i bookings. */
  ghost predicate SharesLeft(d: Deal, target: map<Group, int>, st: State, i: int) {
    d.Valid(target) && forall g :: g in d.gs ==> Left(st, g) == d.After(g, target, i)
  }

  /** What the bookings got. */
  ghost predicate Dealt(d: Deal, target: map<Group, int>, bookings: seq<Booking>, order: Orders) {
    && d.Valid(target)
    && (forall j, g :: 0 <= j < |bookings| && g in d.gs ==> Enough(d.After(g, target, j), d.least[g]))
    && (forall j, g :: 0 <= j < |bookings| && g in d.gs ==>
          Amount(OrderIn(order, bookings[j]), g) == Share(d.After(g, target, j), d.least[g], target[g]))
  }

  lemma SharesStart(st: State, d: Deal, target: map<Group, int>)
    requires d.Valid(target) && forall g :: g in d.gs ==> Left(st, g) == d.size[g]
    ensures SharesLeft(d, target, st, 0) && Dealt(d, target, [], st.order)
  {
  }

  lemma LeftFalls(size: int, share: nat, i: int, j: int)
    requires i <= j
    ensures LeftAfter(size, share, j) <= LeftAfter(size, share, i)
  {
    MulOrder(i, j, share);
  }

  lemma MaxPositive(a: int, b: int)
    ensures a > 0 ==> Max(a, b) > 0
  {
  }

  /** Until the last booking enough is left, and after it no more than that would be. */
  lemma AfterFalls(d: Deal, target: map<Group, int>, g: Group, i: int)
    requires d.Valid(target) && g in d.gs && 0 <= i < d.n
    ensures d.After(g, target, d.n - 1) <= d.After(g, target, i)
  {
    hide CeilDiv, Needed, LeftAfter, Max;
    MaxPositive(d.least[g], target[g]);
    LeftFalls(d.size[g], Max(d.least[g], target[g]), i, d.n - 1);
  }

  lemma LastRound(d: Deal, target: map<Group, int>)
    requires d.Valid(target)
    ensures DealtEvenly(d.gs, d.size, d.limit, d.least) <==>
      forall g :: g in d.gs ==> d.After(g, target, d.n - 1) >= d.least[g]
  {
    hide CeilDiv, Needed;
  }

  lemma EvenRound(s: Setup, pattern: HostPattern, d: Deal, target: map<Group, int>, st0: State, st: State, i: int)
    requires s.Valid() && SharesLeft(d, target, st, i) && 0 <= i < d.n
    requires d.size == st0.count && d.limit == s.limit && d.least == s.least
    requires pattern in s.even ==> Evenly(s, pattern, d.gs, st0)
    ensures pattern in s.even ==> forall g :: g in pattern.members ==> g in d.gs && Left(st, g) >= s.least[g]
  {
    hide Left, CeilDiv, Needed, DealtEvenly, Deal.After;
    if pattern in s.even {
      LastRound(d, target);
      forall g | g in pattern.members
        ensures g in d.gs && Left(st, g) >= s.least[g]
      {
        AfterFalls(d, target, g, i);
      }
    }
  }

  lemma DealableIff(d: Deal, target: map<Group, int>)
    requires d.Valid(target)
    ensures Dealable(d.gs, d.size, d.limit, d.least) <==>
      forall g, i :: g in d.gs && 0 <= i < d.n ==> Enough(d.After(g, target, i), d.least[g])
  {
    hide CeilDiv, Needed, Enough, LeftAfter;
    var n := Needed(d.gs, d.size, d.limit);
    forall g, i | g in d.gs && 0 <= i < d.n
      ensures d.After(g, target, i) == LeftAfter(d.size[g], Max(d.least[g], CeilDiv(d.size[g], n)), i)
    {
    }
  }

  lemma LessThanLeast(n: int, least: int)
    requires !Enough(n, least)
    ensures n < least
  {
  }

  lemma TooFewLeft(d: Deal, target: map<Group, int>, st: State, i: int)
    requires SharesLeft(d, target, st, i) && 0 <= i < d.n && forall g :: g in d.gs ==> g in st.count
    requires !forall g :: g in d.gs ==> Enough(st.count[g], d.least[g])
    ensures !DealtEvenly(d.gs, d.size, d.limit, d.least) && !Dealable(d.gs, d.size, d.limit, d.least)
  {
    hide CeilDiv, Needed, DealtEvenly, Deal.After, Enough, Dealable;
    LastRound(d, target);
    DealableIff(d, target);
    var g :| g in d.gs && !Enough(st.count[g], d.least[g]);
    AfterFalls(d, target, g, i);
    LessThanLeast(st.count[g], d.least[g]);
  }

  lemma ShareTaken(c: int, least: int, target: int)
    requires c >= 0 && least > 0 && target > 0 && Enough(c, least)
    ensures c - Share(c, least, target) == Max(0, c - Max(least, target))
  {
  }

  lemma SharesTaken(d: Deal, target: map<Group, int>, st1: State, st2: State, o: Order, i: int)
    requires SharesLeft(d, target, st1, i) && i >= 0
    requires forall g :: g in d.gs ==> g in st1.count && g in st2.count && g in o && st2.count[g] == st1.count[g] - o[g]
    requires forall g :: g in d.gs ==>
      Enough(st1.count[g], d.least[g]) && o[g] == Share(st1.count[g], d.least[g], target[g])
    ensures SharesLeft(d, target, st2, i + 1)
  {
    hide Share, Enough, CeilDiv, Needed;
    forall g | g in d.gs
      ensures Left(st2, g) == d.After(g, target, i + 1)
    {
      ShareTaken(st1.count[g], d.least[g], target[g]);
      var t := Max(d.least[g], target[g]);
      assert t * (i + 1) == t * i + t;
    }
  }

  lemma DealtMore(d: Deal, target: map<Group, int>, bookings: seq<Booking>, bs: seq<Booking>, bs1: seq<Booking>,
                  st: State, b: Booking, o: Order)
    requires Dealt(d, target, bookings, st.order) && SharesLeft(d, target, st, |bookings|) && b !in bs1
    requires bs1 == bs + bookings
    requires forall g :: g in d.gs ==> g in st.count && g in o
    requires forall g :: g in d.gs ==>
      Enough(st.count[g], d.least[g]) && o[g] == Share(st.count[g], d.least[g], target[g])
    ensures Dealt(d, target, bookings + [b], BookStep(st, b, o).order)
  {
    hide Share, Enough, CeilDiv, Needed, Deal.After;
    assert forall j :: 0 <= j < |bookings| ==> bookings[j] in bs1;
  }

  lemma AllTaken(s: Setup, bs: seq<Booking>, st: State, d: Deal, target: map<Group, int>)
    requires InBalance(s, bs, st) && SharesLeft(d, target, st, d.n)
    ensures forall g :: g in d.gs ==> Left(st, g) == 0
  {
    hide InBalance, CeilDiv, Needed;
    forall g | g in d.gs
      ensures Left(st, g) == 0
    {
      MulOrder(Max(d.least[g], target[g]), target[g], d.n);
    }
  }

  /** No group's least number exceeds its limit. */
  ghost predicate LimitsConsistent(gs: seq<Group>, limit: map<Group, Option<Positive>>, least: map<Group, Positive>) {
    forall g :: g in gs && g in limit && g in least && limit[g] != None ==> least[g] <= limit[g].value
  }

  /** The last booking still finds members of the group with the tightest limit. */
  lemma TightestLast(d: Deal, target: map<Group, int>) returns (g: Group)
    requires d.Valid(target) && LimitsConsistent(d.gs, d.limit, d.least)
    ensures g in d.gs && d.After(g, target, d.n - 1) > 0
    ensures d.n > 1 ==> d.limit[g] != None
  {
    assert d.gs != [];
    g := NeedAttained(d.gs, d.size, d.limit);
    TightShare(d.size[g], d.limit[g], d.least[g], d.n);
  }

  lemma TightShare(size: int, limit: Option<Positive>, least: Positive, n: int)
    requires size > 0 && n == CeilDiv(size, LimitOf(size, limit)) && (limit != None ==> least <= limit.value)
    ensures n > 0 && LeftAfter(size, Max(least, CeilDiv(size, n)), n - 1) > 0
    ensures n > 1 ==> limit != None
  {
    var l := LimitOf(size, limit);
    ShareWithinLimit(size, l, n);
    CeilDivBounds(size, l);
    hide CeilDiv;
    if n > 1 {
      assert l < size by { if l == size { assert n * size < size + size; MulOrder(2, n, size); } }
      MulOrder(Max(least, CeilDiv(size, n)), l, n - 1);
      assert l * (n - 1) == n * l - l;
    }
  }

  /** If they cannot be dealt out evenly, some booking has some groups and lacks others. */
  lemma SomeLeftOut(d: Deal, target: map<Group, int>, bookings: seq<Booking>, order: Orders)
    requires Dealt(d, target, bookings, order) && |bookings| == d.n && LimitsConsistent(d.gs, d.limit, d.least)
    requires !DealtEvenly(d.gs, d.size, d.limit, d.least)
    ensures SomeLack(bookings, d.gs, order) && SomeLimit(d.gs, d.limit)
  {
    hide CeilDiv, Needed, DealtEvenly, Amount, OrderIn, LeftAfter;
    LastRound(d, target);
    var g := TightestLast(d, target);
    var k :| k in d.gs && d.After(k, target, d.n - 1) < d.least[k];
    var b := bookings[d.n - 1];
    assert Enough(d.After(g, target, d.n - 1), d.least[g]) && Enough(d.After(k, target, d.n - 1), d.least[k]);
    assert Amount(OrderIn(order, b), g) > 0 && Amount(OrderIn(order, b), k) <= 0;
    assert LacksSome(OrderIn(order, b), d.gs);
    if d.n == 1 {
      AllAtFirst(d, target, k);
    }
  }

  lemma SharesAre(d: Deal, target: map<Group, int>, bookings: seq<Booking>, order: Orders)
    requires Dealt(d, target, bookings, order) && |bookings| == d.n
    ensures SharedOut(bookings, d.gs, d.size, d.limit, d.least, order)
  {
    hide CeilDiv, Needed, Share, LeftAfter, Amount, OrderIn, Max;
  }

  lemma AllAtFirst(d: Deal, target: map<Group, int>, g: Group)
    requires d.Valid(target) && g in d.gs
    ensures d.After(g, target, 0) == d.size[g] > 0
  {
  }

  /** Each booking got some of each group exactly if enough was left for the last one. */
  lemma CarryIff(d: Deal, target: map<Group, int>, bookings: seq<Booking>, order: Orders)
    requires Dealt(d, target, bookings, order) && |bookings| == d.n
    ensures AllCarry(bookings, d.gs, order) <==> DealtEvenly(d.gs, d.size, d.limit, d.least)
    ensures Dealable(d.gs, d.size, d.limit, d.least)
  {
    hide CeilDiv, Needed, DealtEvenly, Dealable, Deal.After, Amount, OrderIn;
    LastRound(d, target);
    DealableIff(d, target);
    forall j, g | 0 <= j < |bookings| && g in d.gs
      ensures Amount(OrderIn(order, bookings[j]), g) > 0 <==> d.After(g, target, j) >= d.least[g]
    {
    }
    forall j, g | 0 <= j < |bookings| && g in d.gs
      ensures d.After(g, target, d.n - 1) <= d.After(g, target, j)
    {
      AfterFalls(d, target, g, j);
    }
    if !DealtEvenly(d.gs, d.size, d.limit, d.least) {
      var g :| g in d.gs && d.After(g, target, d.n - 1) < d.least[g];
      assert Amount(OrderIn(order, bookings[d.n - 1]), g) <= 0;
    }
  }

  lemma ExtendsSelf(bs: seq<Booking>, st: State)
    ensures Extends(bs, st, bs, st)
  {
  }

  lemma LimitsInBalance(s: Setup, bs: seq<Booking>, st: State, pattern: HostPattern, gs: seq<Group>)
    requires InBalance(s, bs, st) && Bookable(s, pattern) && forall g :: g in gs ==> g in pattern.members
    ensures s.Valid() && forall g :: g in gs ==> g in s.all && g in st.count && g.count >= 0
    ensures forall g :: g in gs ==> g.count == st.count[g] == Left(st, g) && g.maxNum == s.limit[g]
    ensures LimitsConsistent(gs, s.limit, s.least)
  {
    MembersInBalance(s, bs, st, pattern.members);
  }

  lemma OneBookingMore(bs: seq<Booking>, st: State, bs1: seq<Booking>, st1: State, b: Booking, o: Order,
                       bookings: seq<Booking>, pattern: HostPattern)
    requires Extends(bs, st, bs1, st1) && b !in bs1 && b !in bs && b !in st1.hostOf && b.pattern == pattern
    requires bs1 == bs + bookings && Unplaced(bookings, pattern, bs1, st1)
    ensures Extends(bs, st, bs1 + [b], BookStep(st1, b, o))
    ensures Unplaced(bookings + [b], pattern, bs1 + [b], BookStep(st1, b, o))
    ensures bs1 + [b] == bs + (bookings + [b])
  {
  }

  /** Bookings were added; hosts carry what they did. */
  ghost predicate Extends(bs: seq<Booking>, st: State, bs': seq<Booking>, st': State) {
    && bs <= bs' && st'.hostOf == st.hostOf && st'.hosting == st.hosting && st'.free == st.free
    && forall b :: b in bs && b in st.order ==> b in st'.order && st'.order[b] == st.order[b]
  }
}
