/** Hosts, host patterns and bookings: how many members of which group a host carries. */
module Bookings {
  import opened Groups

  ghost predicate NoRepeats<T>(s: seq<T>) {
    forall i, j :: 0 <= i < j < |s| ==> s[i] != s[j]
  }

  /** Disc, RAM and member places, as an amount of each. */
  datatype Use = Use(disc: int, ram: int, members: int) {
    function Plus(u: Use): Use { Use(disc + u.disc, ram + u.ram, members + u.members) }
    function Minus(u: Use): Use { Use(disc - u.disc, ram - u.ram, members - u.members) }
    predicate NonNegative() { disc >= 0 && ram >= 0 && members >= 0 }
  }

  const NOTHING := Use(0, 0, 0)

  type Order = map<Group, int>

  function SetOf<T>(s: seq<T>): set<T> { set x | x in s }

  function Zeros(gs: seq<Group>): (o: Order)
    ensures o.Keys == SetOf(gs)
  {
    map g | g in gs :: 0
  }

  function Amount(o: Order, g: Group): int {
    if g in o then o[g] else 0
  }

  /** What n members of a group need on a host of some architecture. */
  function Need(g: Group, arch: Arch, n: int): Use {
    if arch in g.prototypes
    then Use(n * g.prototypes[arch].reqDisc, n * g.prototypes[arch].reqRAM, n)
    else Use(0, 0, n)
  }

  function UseOf(groups: seq<Group>, o: Order, arch: Arch): Use {
    if groups == [] then NOTHING
    else UseOf(groups[..|groups| - 1], o, arch).Plus(Need(groups[|groups| - 1], arch, Amount(o, groups[|groups| - 1])))
  }

  /** r is s without one occurrence of x. */
  ghost predicate IsRemoved<T>(s: seq<T>, x: T, r: seq<T>) {
    exists i :: 0 <= i < |s| && s[i] == x && r == s[..i] + s[i + 1..]
  }

  method ListRemove<T(==)>(s: seq<T>, x: T) returns (r: seq<T>)
    requires x in s
    ensures IsRemoved(s, x, r)
  {
    var k := 0;
    while s[k] != x
      invariant 0 <= k < |s| && x in s[k..]
      decreases |s| - k
    {
      k := k + 1;
    }
    r := s[..k] + s[k + 1..];
  }

  /** A host pattern: the groups of one bound class, also listed in the set's iteration
      order, and the number of the container it belongs to. */
  class HostPattern {
    const members: set<Group>
    const groups: seq<Group>
    const groupedHostPatternID: nat

    constructor (groups: seq<Group>, id: nat)
      requires NoRepeats(groups)
      ensures this.groups == groups && groupedHostPatternID == id && Valid()
    {
      this.groups := groups;
      members := SetOf(groups);
      groupedHostPatternID := id;
    }

    ghost predicate Valid() {
      NoRepeats(groups) && members == SetOf(groups)
    }
  }

  class Host {
    const maxMembers: int
    const cpuArch: Arch
    var freeDisc: int
    var availableRAM: int
    var bookings: seq<Booking>
    var bookedMembers: int

    constructor (maxMembers: int, cpuArch: Arch, freeDisc: int, availableRAM: int)
      ensures this.maxMembers == maxMembers && this.cpuArch == cpuArch && bookings == []
      ensures Free() == Use(freeDisc, availableRAM, maxMembers)
    {
      this.maxMembers := maxMembers;
      this.cpuArch := cpuArch;
      this.freeDisc := freeDisc;
      this.availableRAM := availableRAM;
      bookings := [];
      bookedMembers := 0;
    }

    ghost function Free(): Use
      reads this`freeDisc, this`availableRAM, this`bookedMembers
    {
      Use(freeDisc, availableRAM, maxMembers - bookedMembers)
    }

    ghost predicate Runs(groups: seq<Group>) {
      forall g :: g in groups ==> cpuArch in g.prototypes
    }

    method AcceptBooking(booking: Booking) returns (accept: bool)
      requires booking.pattern.Valid() && booking.order.Keys == booking.pattern.members
      ensures accept <==> Runs(booking.pattern.groups) &&
                          Free().Minus(UseOf(booking.pattern.groups, booking.order, cpuArch)).NonNegative()
      ensures accept <==> Runs(booking.pattern.groups) && var gs, o := booking.pattern.groups, booking.order;
        && bookedMembers + Sum(Places(gs, o)) <= maxMembers
        && Sum(Discs(gs, o, cpuArch)) <= freeDisc && Sum(Rams(gs, o, cpuArch)) <= availableRAM
    {
      hide UseOf, Sum, Discs, Rams, Places;
      if Runs(booking.pattern.groups) { UseTotals(booking.pattern.groups, booking.order, cpuArch); }
      var hd, ram, cnt := 0, 0, 0;
      var groups := booking.pattern.groups;
      UseEmpty(groups, booking.order, cpuArch);
      for i := 0 to |groups|
        invariant Runs(groups[..i]) && UseOf(groups[..i], booking.order, cpuArch) == Use(hd, ram, cnt)
      {
        var group, amount := groups[i], booking.order[groups[i]];
        if cpuArch !in group.prototypes {
          return false;
        }
        UseStep(groups, i, booking.order, cpuArch);
        hd := hd + amount * group.prototypes[cpuArch].reqDisc;
        ram := ram + amount * group.prototypes[cpuArch].reqRAM;
        cnt := cnt + amount;
      }
      assert groups[..|groups|] == groups;
      accept := bookedMembers + cnt <= maxMembers && hd <= freeDisc && ram <= availableRAM;
    }

    /** Takes the resources of n more members, or returns those of -n. */
    method Charge(group: Group, n: int)
      requires cpuArch in group.prototypes
      modifies this`freeDisc, this`availableRAM, this`bookedMembers
      ensures Free() == old(Free()).Minus(Need(group, cpuArch, n))
      ensures bookedMembers == old(bookedMembers) + n
      ensures freeDisc == old(freeDisc) - n * group.prototypes[cpuArch].reqDisc
      ensures availableRAM == old(availableRAM) - n * group.prototypes[cpuArch].reqRAM
    {
      var prototype := group.prototypes[cpuArch];
      freeDisc := freeDisc - n * prototype.reqDisc;
      availableRAM := availableRAM - n * prototype.reqRAM;
      bookedMembers := bookedMembers + n;
    }

    method ApplyBooking(booking: Booking)
      requires booking.pattern.Valid() && booking.order.Keys == booking.pattern.members
      requires Runs(booking.pattern.groups) && booking.host == null
      requires Free().Minus(UseOf(booking.pattern.groups, booking.order, cpuArch)).NonNegative()
      modifies this, booking`host
      ensures bookings == old(bookings) + [booking] && booking.host == this
      ensures Free() == old(Free()).Minus(UseOf(booking.pattern.groups, booking.order, cpuArch))
    {
      hide UseOf, Need;
      UseEmpty(booking.pattern.groups, booking.order, cpuArch);
      bookings := bookings + [booking];
      booking.host := this;
      var groups := booking.pattern.groups;
      for i := 0 to |groups|
        invariant bookings == old(bookings) + [booking] && booking.host == this
        invariant Free() == old(Free()).Minus(UseOf(groups[..i], booking.order, cpuArch))
      {
        UseStep(groups, i, booking.order, cpuArch);
        Charge(groups[i], booking.order[groups[i]]);
      }
      assert groups[..|groups|] == groups;
    }

    method DropBooking(booking: Booking)
      requires booking in bookings
      modifies this`bookings, booking`host
      ensures booking.host == null && IsRemoved(old(bookings), booking, bookings)
    {
      booking.host := null;
      bookings := ListRemove(bookings, booking);
    }

    method RemoveBooking(booking: Booking)
      requires booking.pattern.Valid() && booking.order.Keys == booking.pattern.members
      requires Runs(booking.pattern.groups) && booking in bookings
      modifies this, booking`host
      ensures booking.host == null && IsRemoved(old(bookings), booking, bookings)
      ensures Free() == old(Free()).Plus(UseOf(booking.pattern.groups, booking.order, cpuArch))
    {
      hide UseOf, Need;
      UseEmpty(booking.pattern.groups, booking.order, cpuArch);
      var groups := booking.pattern.groups;
      for i := 0 to |groups|
        invariant bookings == old(bookings)
        invariant Free() == old(Free()).Plus(UseOf(groups[..i], booking.order, cpuArch))
      {
        UseStep(groups, i, booking.order, cpuArch);
        NeedNegative(groups[i], cpuArch, booking.order[groups[i]]);
        Charge(groups[i], -booking.order[groups[i]]);
      }
      assert groups[..|groups|] == groups;
      DropBooking(booking);
    }
  }

  lemma NeedNegative(g: Group, arch: Arch, n: int)
    ensures forall u: Use :: u.Minus(Need(g, arch, -n)) == u.Plus(Need(g, arch, n))
  {
  }

  class Booking {
    const pattern: HostPattern
    var host: Host?
    var order: Order

    constructor (pattern: HostPattern)
      requires pattern.Valid()
      ensures this.pattern == pattern && host == null
      ensures order == Zeros(pattern.groups)
    {
      this.pattern := pattern;
      host := null;
      order := Zeros(pattern.groups);
    }

    ghost predicate Shape()
      reads this
    {
      pattern.Valid() && order.Keys == pattern.members && (host != null ==> host.Runs(pattern.groups))
    }

    ghost function HostSet(): set<Host>
      reads this`host
    {
      if host == null then {} else {host}
    }

    /** Moves members between the group's remaining count and this booking, on its host. */
    method ChangeAmount(group: Group, amountDiff: int)
      requires Shape() && group in pattern.members
      modifies this`order, group`count, HostSet()`freeDisc, HostSet()`availableRAM, HostSet()`bookedMembers
      ensures order == old(order)[group := old(order[group]) + amountDiff]
      ensures group.count == old(group.count) - amountDiff
      ensures host != null ==> host.Free() == old(host.Free()).Minus(Need(group, host.cpuArch, amountDiff))
    {
      group.count := group.count - amountDiff;
      order := order[group := order[group] + amountDiff];
      if host != null {
        host.Charge(group, amountDiff);
      }
    }

    /** Books between the group's minimum and maximum; fails when fewer than the minimum
        are left. */
    method BookGroup(group: Group, targetAmount: int) returns (ok: bool)
      requires Shape() && group in pattern.members && host == null
      requires order[group] == 0 && targetAmount > 0
      modifies this`order, group`count
      ensures ok <==> GetMin(group, old(group.count)).Some?
      ensures !ok ==> order == old(order) && group.count == old(group.count)
      ensures ok ==>
        var n := Max(GetMin(group, old(group.count)).value, Min(GetMax(group, old(group.count)), targetAmount));
        order == old(order)[group := n] && group.count == old(group.count) - n
    {
      match GetMin(group, group.count)
      case None =>
        ok := false;
      case Some(least) =>
        ok := true;
        ChangeAmount(group, Max(least, Min(GetMax(group, group.count), targetAmount)));
    }
  
    ghost predicate WithinMax()
      reads this, pattern.members
    {
      Shape() && forall g :: g in pattern.members ==>
        0 <= order[g] && (g.maxNum != None ==> order[g] <= g.maxNum.value)
    }

    ghost predicate Splittable()
      reads this, pattern.members
    {
      Shape() && forall g :: g in pattern.members ==> order[g] >= 2 * Least(g)
    }

    /** Halves the booking; the other half becomes a new booking on no host.  Fails, and
        changes nothing, when some group has fewer than twice its minimum here. */
    method SplitBooking() returns (newBooking: Booking?)
      requires WithinMax()
      requires forall g :: g in pattern.members ==> g.count >= 0
      modifies this`order, pattern.members`count, HostSet()`freeDisc, HostSet()`availableRAM, HostSet()`bookedMembers
      ensures newBooking == null <==> !old(Splittable())
      ensures newBooking == null ==> order == old(order) && (host != null ==> host.Free() == old(host.Free()))
      ensures newBooking != null ==> fresh(newBooking) && newBooking.pattern == pattern && newBooking.host == null
      ensures newBooking != null ==>
        order == FirstHalf(old(order), pattern.groups) && newBooking.order == OtherHalf(old(order), pattern.groups)
      ensures newBooking != null && host != null ==>
        host.Free() == old(host.Free()).Plus(UseOf(pattern.groups, newBooking.order, host.cpuArch))
      ensures forall g :: g in pattern.members ==> g.count == old(g.count)
    {
      var groups := pattern.groups;
      var i := 0;
      while i < |groups|
        invariant 0 <= i <= |groups|
        invariant forall g :: g in groups[..i] ==> order[g] >= 2 * Least(g)
      {
        if order[groups[i]] < 2 * Least(groups[i]) {
          assert groups[i] in pattern.members;
          return null;
        }
        i := i + 1;
      }
      assert groups[..i] == groups;
      assert Splittable();
      newBooking := new Booking(pattern);
      MoveHalves(newBooking);
    }

    method MoveHalves(newBooking: Booking)
      requires Shape()
      requires forall g :: g in pattern.members ==> HalfReady(g, order) && g.count >= 0
      requires newBooking != this && newBooking.pattern == pattern && newBooking.host == null
      requires newBooking.order == Zeros(pattern.groups)
      modifies this`order, newBooking`order, pattern.members`count, HostSet()`freeDisc, HostSet()`availableRAM
      modifies HostSet()`bookedMembers
      ensures order == FirstHalf(old(order), pattern.groups)
      ensures newBooking.order == OtherHalf(old(order), pattern.groups)
      ensures host != null ==>
        host.Free() == old(host.Free()).Plus(UseOf(pattern.groups, newBooking.order, host.cpuArch))
      ensures forall g :: g in pattern.members ==> g.count == old(g.count)
    {
      hide UseOf, Need, FirstHalf, OtherHalf, HalfReady;
      var groups := pattern.groups;
      ghost var was := order;
      HalfEmpty(was, groups);
      if host != null { UseEmpty(groups, OtherHalf(was, groups), host.cpuArch); }
      var i := 0;
      while i < |groups|
        invariant 0 <= i <= |groups|
        invariant order == FirstHalf(was, groups[..i]) && newBooking.order == OtherHalf(was, groups[..i])
        invariant forall g :: g in pattern.members ==> g.count == old(g.count)
        invariant host != null ==>
          host.Free() == old(host.Free()).Plus(UseOf(groups[..i], OtherHalf(was, groups), host.cpuArch))
      {
        assert groups[i] in pattern.members;
        MoveHalf(newBooking, i, was);
        if host != null { UseStep(groups, i, OtherHalf(was, groups), host.cpuArch); }
        i := i + 1;
      }
      assert groups[..i] == groups;
    }

    /** Moves one half of the i-th group's members from this booking to the new one. */
    method MoveHalf(newBooking: Booking, i: nat, ghost was: Order)
      requires i < |pattern.groups| && pattern.Valid() && was.Keys == pattern.members
      requires newBooking != this && newBooking.pattern == pattern && newBooking.host == null
      requires host != null ==> host.Runs(pattern.groups)
      requires order == FirstHalf(was, pattern.groups[..i]) && newBooking.order == OtherHalf(was, pattern.groups[..i])
      requires HalfReady(pattern.groups[i], was) && pattern.groups[i].count >= 0
      modifies this`order, newBooking`order, {pattern.groups[i]}`count, HostSet()`freeDisc, HostSet()`availableRAM
      modifies HostSet()`bookedMembers
      ensures order == FirstHalf(was, pattern.groups[..i + 1])
      ensures newBooking.order == OtherHalf(was, pattern.groups[..i + 1])
      ensures pattern.groups[i].count == old(pattern.groups[i].count)
      ensures host != null ==> host.Free() == old(host.Free()).Plus(
        Need(pattern.groups[i], host.cpuArch, Amount(OtherHalf(was, pattern.groups), pattern.groups[i])))
    {
      hide UseOf, Need, FirstHalf, OtherHalf, HalfReady, GetMin, GetMax, Max, Min, Amount;
      HalfAt(was, pattern.groups, i);
      var group := pattern.groups[i];
      var half := order[group] / 2;
      var rest := order[group] - half;
      HalfIsBooked(group, was, group.count + rest);
      if host != null { NeedNegative(group, host.cpuArch, rest); }
      ChangeAmount(group, -rest);
      var ok := newBooking.BookGroup(group, rest);
    }

    /** Takes an unused split back. */
    method RevertSplit(splitted: Booking)
      requires splitted != this && splitted.pattern == pattern && splitted.host == null
      requires Shape() && splitted.Shape()
      modifies this`order, splitted`order, pattern.members`count, HostSet()`freeDisc, HostSet()`availableRAM
      modifies HostSet()`bookedMembers
      ensures order == Joined(old(order), old(splitted.order), pattern.groups)
      ensures splitted.order == Emptied(old(splitted.order), pattern.groups)
      ensures forall g :: g in pattern.members ==> g.count == old(g.count)
      ensures host != null ==>
        host.Free() == old(host.Free()).Minus(UseOf(pattern.groups, old(splitted.order), host.cpuArch))
    {
      hide UseOf, Need, Joined, Emptied;
      var groups := pattern.groups;
      ghost var was, other := order, splitted.order;
      JoinEmpty(was, other, groups);
      if host != null { UseEmpty(groups, other, host.cpuArch); }
      for i := 0 to |groups|
        invariant order == Joined(was, other, groups[..i]) && splitted.order == Emptied(other, groups[..i])
        invariant forall g :: g in pattern.members ==> g.count == old(g.count)
        invariant host != null ==> host.Free() == old(host.Free()).Minus(UseOf(groups[..i], other, host.cpuArch))
      {
        assert groups[i] in pattern.members;
        TakeBack(splitted, i, was, other);
        if host != null { UseStep(groups, i, other, host.cpuArch); }
      }
      assert groups[..|groups|] == groups;
    }

    method TakeBack(splitted: Booking, i: nat, ghost was: Order, ghost other: Order)
      requires splitted != this && splitted.pattern == pattern && splitted.host == null && i < |pattern.groups|
      requires pattern.Valid() && was.Keys == pattern.members && other.Keys == was.Keys
      requires host != null ==> host.Runs(pattern.groups)
      requires order == Joined(was, other, pattern.groups[..i]) && splitted.order == Emptied(other, pattern.groups[..i])
      modifies this`order, splitted`order, {pattern.groups[i]}`count, HostSet()`freeDisc, HostSet()`availableRAM
      modifies HostSet()`bookedMembers
      ensures order == Joined(was, other, pattern.groups[..i + 1])
      ensures splitted.order == Emptied(other, pattern.groups[..i + 1])
      ensures pattern.groups[i].count == old(pattern.groups[i].count)
      ensures host != null ==>
        host.Free() == old(host.Free()).Minus(Need(pattern.groups[i], host.cpuArch, Amount(other, pattern.groups[i])))
    {
      hide UseOf, Need, Joined, Emptied, Amount;
      JoinAt(was, other, pattern.groups, i);
      var g := pattern.groups[i];
      MoveHere(splitted, g);
    }

    /** Moves the members of one group from the other booking to this one. */
    method MoveHere(splitted: Booking, g: Group)
      requires splitted != this && splitted.host == null && Shape() && splitted.Shape()
      requires g in pattern.members && g in splitted.pattern.members
      modifies this`order, splitted`order, g`count, HostSet()`freeDisc, HostSet()`availableRAM, HostSet()`bookedMembers
      ensures order == old(order)[g := old(order[g]) + old(splitted.order[g])]
      ensures splitted.order == old(splitted.order)[g := 0] && g.count == old(g.count)
      ensures host != null ==> host.Free() == old(host.Free()).Minus(Need(g, host.cpuArch, old(splitted.order[g])))
    {
      hide Need;
      ChangeAmount(g, splitted.order[g]);
      splitted.ChangeAmount(g, -splitted.order[g]);
    }

    /** Leaves the host and gives all members back. */
    method RemoveBooking()
      requires Shape() && (host != null ==> this in host.bookings)
      modifies this`order, this`host, pattern.members`count, HostSet()
      ensures host == null && order == Emptied(old(order), pattern.groups)
      ensures forall g :: g in pattern.members ==> g.count == old(g.count) + Amount(old(order), g)
      ensures var h := old(host); h != null ==>
        IsRemoved(old(h.bookings), this, h.bookings)
        && h.Free() == old(h.Free()).Plus(UseOf(pattern.groups, old(order), h.cpuArch))
    {
      hide UseOf, Emptied, Amount, IsRemoved;
      if host != null {
        host.RemoveBooking(this);
      }
      GiveBack();
    }

    /** All members back to their groups; the booking is on no host. */
    method GiveBack()
      requires Shape() && host == null
      modifies this`order, pattern.members`count
      ensures order == Emptied(old(order), pattern.groups)
      ensures forall g :: g in pattern.members ==> g.count == old(g.count) + Amount(old(order), g)
    {
      hide Emptied, Amount;
      var groups := pattern.groups;
      ghost var was := order;
      JoinEmpty(was, was, groups);
      var i := 0;
      while i < |groups|
        invariant 0 <= i <= |groups| && order == Emptied(was, groups[..i])
        invariant forall g :: g in groups[..i] ==> g.count == old(g.count) + Amount(was, g)
        invariant forall g :: g in pattern.members && g !in groups[..i] ==> g.count == old(g.count)
      {
        OneMore(groups, i);
        JoinAt(was, was, groups, i);
        assert groups[i] in pattern.members;
        groups[i].count := groups[i].count + order[groups[i]];
        order := order[groups[i] := 0];
        i := i + 1;
      }
      assert groups[..i] == groups;
    }
  }

  lemma UseEmpty(groups: seq<Group>, o: Order, arch: Arch)
    ensures UseOf(groups[..0], o, arch) == NOTHING
  {
  }

  lemma UseStep(groups: seq<Group>, i: nat, o: Order, arch: Arch)
    requires i < |groups|
    ensures UseOf(groups[..i + 1], o, arch)
      == UseOf(groups[..i], o, arch).Plus(Need(groups[i], arch, Amount(o, groups[i])))
  {
    assert groups[..i + 1][..i] == groups[..i];
  }

  function Sum(xs: seq<int>): int {
    if xs == [] then 0 else Sum(xs[..|xs| - 1]) + xs[|xs| - 1]
  }

  ghost predicate Prototyped(groups: seq<Group>, o: Order, arch: Arch) {
    forall g :: g in groups ==> arch in g.prototypes && g in o
  }

  /** For each group, the disc, RAM and places of all its members in the order. */
  function Discs(groups: seq<Group>, o: Order, arch: Arch): seq<int>
    requires Prototyped(groups, o, arch)
  {
    seq(|groups|, i requires 0 <= i < |groups| => o[groups[i]] * groups[i].prototypes[arch].reqDisc)
  }

  function Rams(groups: seq<Group>, o: Order, arch: Arch): seq<int>
    requires Prototyped(groups, o, arch)
  {
    seq(|groups|, i requires 0 <= i < |groups| => o[groups[i]] * groups[i].prototypes[arch].reqRAM)
  }

  function Places(groups: seq<Group>, o: Order): seq<int>
    requires forall g :: g in groups ==> g in o
  {
    seq(|groups|, i requires 0 <= i < |groups| => o[groups[i]])
  }

  /** A booking takes the disc, the RAM and the places of all its members together. */
  lemma {:induction false} UseTotals(groups: seq<Group>, o: Order, arch: Arch)
    requires Prototyped(groups, o, arch)
    ensures UseOf(groups, o, arch).disc == Sum(Discs(groups, o, arch))
    ensures UseOf(groups, o, arch).ram == Sum(Rams(groups, o, arch))
    ensures UseOf(groups, o, arch).members == Sum(Places(groups, o))
  {
    if groups != [] {
      var init := groups[..|groups| - 1];
      UseTotals(init, o, arch);
      assert Discs(groups, o, arch)[..|groups| - 1] == Discs(init, o, arch);
      assert Rams(groups, o, arch)[..|groups| - 1] == Rams(init, o, arch);
      assert Places(groups, o)[..|groups| - 1] == Places(init, o);
    }
  }

  /** The orders after halving the groups of gs: what stays, and what moves to a new
      booking. */
  function FirstHalf(o: Order, gs: seq<Group>): Order {
    map g | g in o :: if g in gs then o[g] / 2 else o[g]
  }

  function OtherHalf(o: Order, gs: seq<Group>): Order {
    map g | g in o :: if g in gs then o[g] - o[g] / 2 else 0
  }

  /** The orders after moving the groups of gs back from other to o. */
  function Joined(o: Order, other: Order, gs: seq<Group>): Order {
    map g | g in o :: if g in gs then o[g] + Amount(other, g) else o[g]
  }

  function Emptied(o: Order, gs: seq<Group>): Order {
    map g | g in o :: if g in gs then 0 else o[g]
  }

  lemma HalfEmpty(o: Order, gs: seq<Group>)
    requires o.Keys == SetOf(gs)
    ensures FirstHalf(o, gs[..0]) == o && OtherHalf(o, gs[..0]) == Zeros(gs)
  {
  }

  lemma OneMore<T>(s: seq<T>, i: nat)
    requires i < |s| && NoRepeats(s)
    ensures s[i] !in s[..i] && forall x :: x in s[..i + 1] <==> x in s[..i] || x == s[i]
  {
    assert s[..i + 1] == s[..i] + [s[i]];
  }

  lemma HalfAt(o: Order, gs: seq<Group>, i: nat)
    requires i < |gs| && NoRepeats(gs) && o.Keys == SetOf(gs)
    ensures FirstHalf(o, gs[..i]).Keys == o.Keys && OtherHalf(o, gs[..i]).Keys == o.Keys && gs[i] in o.Keys
    ensures var g := gs[i];
      && FirstHalf(o, gs[..i])[g] == o[g] && OtherHalf(o, gs[..i])[g] == 0
      && FirstHalf(o, gs[..i])[g := o[g] / 2] == FirstHalf(o, gs[..i + 1])
      && OtherHalf(o, gs[..i])[g := o[g] - o[g] / 2] == OtherHalf(o, gs[..i + 1])
      && Amount(OtherHalf(o, gs), g) == o[g] - o[g] / 2
  {
    hide NoRepeats;
    OneMore(gs, i);
    FirstHalfAt(o, gs[..i], gs[..i + 1], gs[i]);
    OtherHalfAt(o, gs[..i], gs[..i + 1], gs[i]);
  }

  lemma FirstHalfAt(o: Order, done: seq<Group>, done': seq<Group>, g: Group)
    requires g in o && g !in done && forall x :: x in done' <==> x in done || x == g
    ensures FirstHalf(o, done)[g := o[g] / 2] == FirstHalf(o, done')
  {
  }

  lemma OtherHalfAt(o: Order, done: seq<Group>, done': seq<Group>, g: Group)
    requires g in o && g !in done && forall x :: x in done' <==> x in done || x == g
    ensures OtherHalf(o, done)[g := o[g] - o[g] / 2] == OtherHalf(o, done')
  {
  }

  lemma JoinEmpty(o: Order, other: Order, gs: seq<Group>)
    ensures Joined(o, other, gs[..0]) == o && Emptied(other, gs[..0]) == other
  {
  }

  lemma JoinAt(o: Order, other: Order, gs: seq<Group>, i: nat)
    requires i < |gs| && NoRepeats(gs) && o.Keys == SetOf(gs) && other.Keys == o.Keys
    ensures Joined(o, other, gs[..i]).Keys == o.Keys && Emptied(other, gs[..i]).Keys == o.Keys && gs[i] in o.Keys
    ensures var g := gs[i];
      && Joined(o, other, gs[..i])[g] == o[g] && Emptied(other, gs[..i])[g] == other[g] && Amount(other, g) == other[g]
      && Joined(o, other, gs[..i])[g := o[g] + other[g]] == Joined(o, other, gs[..i + 1])
      && Emptied(other, gs[..i])[g := 0] == Emptied(other, gs[..i + 1])
  {
    hide NoRepeats;
    OneMore(gs, i);
    JoinedAt(o, other, gs[..i], gs[..i + 1], gs[i]);
    EmptiedAt(other, gs[..i], gs[..i + 1], gs[i]);
  }

  lemma JoinedAt(o: Order, other: Order, done: seq<Group>, done': seq<Group>, g: Group)
    requires g in o && g in other && g !in done && forall x :: x in done' <==> x in done || x == g
    ensures Joined(o, other, done)[g := o[g] + other[g]] == Joined(o, other, done')
  {
  }

  lemma EmptiedAt(o: Order, done: seq<Group>, done': seq<Group>, g: Group)
    requires g in o && g !in done && forall x :: x in done' <==> x in done || x == g
    ensures Emptied(o, done)[g := 0] == Emptied(o, done')
  {
  }

  /** Splitting and taking the split back is the identity. */
  lemma SplitThenRevert(o: Order, gs: seq<Group>)
    ensures Joined(FirstHalf(o, gs), OtherHalf(o, gs), gs) == o
  {
  }

  /** Both halves of what o holds of g meet its minimum and its maximum. */
  ghost predicate HalfReady(g: Group, o: Order)
    reads g`minNum, g`maxNum
  {
    g in o && o[g] >= 2 * Least(g) && (g.maxNum != None ==> o[g] <= g.maxNum.value)
  }

  /** Booking such a half, of at least that many members, books all of it. */
  lemma HalfIsBooked(g: Group, o: Order, count: int)
    requires HalfReady(g, o) && count >= o[g] - o[g] / 2
    ensures var rest := o[g] - o[g] / 2;
      rest > 0 && GetMin(g, count).Some? && Max(GetMin(g, count).value, Min(GetMax(g, count), rest)) == rest
  {
  }

  function Least(group: Group): int
    reads group`minNum
  {
    if group.minNum == None then 1 else group.minNum.value
  }

  lemma {:induction false} SameUse(groups: seq<Group>, o: Order, o': Order)
    requires forall g :: g in groups ==> Amount(o, g) == Amount(o', g)
    ensures forall arch :: UseOf(groups, o, arch) == UseOf(groups, o', arch)
  {
    if groups != [] {
      SameUse(groups[..|groups| - 1], o, o');
    }
  }

  function Max(a: int, b: int): int { if a > b then a else b }
  function Min(a: int, b: int): int { if a < b then a else b }

  /** The least number of members to book, unless fewer are left. */
  function GetMin(group: Group, count: int): Option<int>
    reads group`minNum
  {
    var minNum := if group.minNum == None then 1 else group.minNum.value;
    if minNum > count then None else Some(minNum)
  }

  function GetMax(group: Group, count: int): int
    reads group`maxNum
  {
    if group.maxNum == None then count else Min(group.maxNum.value, count)
  }
}
