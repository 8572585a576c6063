/** The node-host placement: the bookings of each pattern are put on hosts, split when no host
    takes them, and all taken away again when one of them cannot be placed. */
module Placement {
  import opened Groups
  import opened Bookings
  import opened Ledger
  import opened Steps
  import opened Dealing

  // ------ choosing hosts

  /** The pattern numbers of all other components. */
  function OtherPatternGroups(patternGroups: seq<set<nat>>, pattern: HostPattern): set<nat> {
    set i, id |
      0 <= i < |patternGroups| && pattern.groupedHostPatternID !in patternGroups[i] && id in patternGroups[i] :: id
  }

  /** May bookings of these two patterns share a host? */
  predicate CheckPatternCompatibility(patternGroups: seq<set<nat>>, a: HostPattern, b: HostPattern)
    reads a.members`maxNum
  {
    if a.groupedHostPatternID == b.groupedHostPatternID
    then a != b || forall group | group in a.members :: group.maxNum == None
    else a.groupedHostPatternID in OtherPatternGroups(patternGroups, b)
  }

  /** The same, by the setup's limits. */
  ghost predicate Compatible(s: Setup, patternGroups: seq<set<nat>>, a: HostPattern, b: HostPattern) {
    if a.groupedHostPatternID == b.groupedHostPatternID
    then a != b || forall g | g in a.members :: g in s.limit && s.limit[g] == None
    else a.groupedHostPatternID in OtherPatternGroups(patternGroups, b)
  }

  ghost predicate FitsBeside(s: Setup, patternGroups: seq<set<nat>>, on: seq<Booking>, b: Booking) {
    forall i :: 0 <= i < |on| ==> Compatible(s, patternGroups, on[i].pattern, b.pattern)
  }

  /** Bookings that share a host are compatible. */
  ghost predicate HostsCompatible(s: Setup, patternGroups: seq<set<nat>>, st: State) {
    forall h, j :: h in st.hosting && 0 <= j < |st.hosting[h]| ==>
      FitsBeside(s, patternGroups, st.hosting[h][..j], st.hosting[h][j])
  }

  ghost predicate Suits(s: Setup, patternGroups: seq<set<nat>>, st: State, h: Host, b: Booking) {
    CanApply(s, st, h, b) && FitsBeside(s, patternGroups, st.hosting[h], b)
  }

  /** Does the booking go well with everything on the host? */
  method CompatibleWithAll(ghost s: Setup, patternGroups: seq<set<nat>>, h: Host, b: Booking) returns (ok: bool)
    requires Fits(s) && forall i :: 0 <= i < |h.bookings| ==> h.bookings[i].pattern.members <= s.all
    ensures ok <==> FitsBeside(s, patternGroups, h.bookings, b)
  {
    hide OtherPatternGroups;
    var i := 0;
    while i < |h.bookings|
      invariant 0 <= i <= |h.bookings| && FitsBeside(s, patternGroups, h.bookings[..i], b)
    {
      if !CheckPatternCompatibility(patternGroups, h.bookings[i].pattern, b.pattern) {
        assert !Compatible(s, patternGroups, h.bookings[i].pattern, b.pattern);
        return false;
      }
      i := i + 1;
    }
    assert h.bookings[..i] == h.bookings;
    return true;
  }

  ghost predicate NoneSuits(s: Setup, patternGroups: seq<set<nat>>, st: State, b: Booking) {
    forall h :: h in s.hosts ==> !Suits(s, patternGroups, st, h, b)
  }

  /** How many members the host has. */
  ghost function MembersOn(st: State, h: Host): int
    requires h in st.free
  {
    h.maxMembers - st.free[h].members
  }

  /** Of two suitable hosts, at i and at j, the strategy takes the first one: the earlier one; or,
      if many hosts are to be used, the earlier one without members, and only then the one with
      the fewest. */
  ghost predicate Preferred(useMany: bool, st: State, hosts: seq<Host>, i: int, j: int)
    requires 0 <= i < |hosts| && 0 <= j < |hosts| && hosts[i] in st.free && hosts[j] in st.free
  {
    var m, n := MembersOn(st, hosts[i]), MembersOn(st, hosts[j]);
    if !useMany then i <= j
    else if m <= 0 then n > 0 || i <= j
    else n > m || (n == m && i <= j)
  }

  ghost predicate Chosen(s: Setup, hosts: seq<Host>, patternGroups: seq<set<nat>>, useMany: bool, st: State,
                         b: Booking, found: Host) {
    Suits(s, patternGroups, st, found, b) &&
    exists i :: 0 <= i < |hosts| && hosts[i] == found && BestAt(s, hosts, patternGroups, useMany, st, b, i, |hosts|)
  }

  /** The i-th host suits, and is preferred to all suitable ones among the first n. */
  ghost predicate BestAt(s: Setup, hosts: seq<Host>, patternGroups: seq<set<nat>>, useMany: bool, st: State, b: Booking,
                         i: int, n: int) {
    && 0 <= i < n <= |hosts| && Suits(s, patternGroups, st, hosts[i], b)
    && forall j :: 0 <= j < n && Suits(s, patternGroups, st, hosts[j], b) ==> Preferred(useMany, st, hosts, i, j)
  }

  /** No host among the first i suits, or the one at at is the best and has members. */
  ghost predicate SoFar(s: Setup, hosts: seq<Host>, patternGroups: seq<set<nat>>, useMany: bool, st: State, b: Booking,
                        at: int, i: int) {
    || (forall j :: 0 <= j < i <= |hosts| ==> !Suits(s, patternGroups, st, hosts[j], b))
    || (useMany && BestAt(s, hosts, patternGroups, useMany, st, b, at, i) && hosts[at] in st.free
        && MembersOn(st, hosts[at]) > 0)
  }

  lemma BestNow(s: Setup, hosts: seq<Host>, patternGroups: seq<set<nat>>, useMany: bool, st: State, b: Booking,
                at: int, i: int)
    requires 0 <= i < |hosts| && SoFar(s, hosts, patternGroups, useMany, st, b, at, i)
    requires Suits(s, patternGroups, st, hosts[i], b) && (!useMany || MembersOn(st, hosts[i]) <= 0)
    ensures BestAt(s, hosts, patternGroups, useMany, st, b, i, |hosts|)
  {
    hide FitsBeside, UseOf, Use.NonNegative;
  }

  lemma NextBest(s: Setup, hosts: seq<Host>, patternGroups: seq<set<nat>>, useMany: bool, st: State, b: Booking,
                 at: int, i: int)
    requires 0 <= i < |hosts| && SoFar(s, hosts, patternGroups, useMany, st, b, at, i) && useMany
    requires Suits(s, patternGroups, st, hosts[i], b) && MembersOn(st, hosts[i]) > 0
    requires BestAt(s, hosts, patternGroups, useMany, st, b, at, i) ==>
      MembersOn(st, hosts[at]) > MembersOn(st, hosts[i])
    ensures BestAt(s, hosts, patternGroups, useMany, st, b, i, i + 1)
  {
    hide FitsBeside, UseOf, Use.NonNegative;
  }

  lemma StillBest(s: Setup, hosts: seq<Host>, patternGroups: seq<set<nat>>, useMany: bool, st: State, b: Booking,
                  at: int, i: int)
    requires 0 <= i < |hosts| && BestAt(s, hosts, patternGroups, useMany, st, b, at, i) && useMany
    requires Suits(s, patternGroups, st, hosts[i], b) ==> 0 < MembersOn(st, hosts[at]) <= MembersOn(st, hosts[i])
    ensures BestAt(s, hosts, patternGroups, useMany, st, b, at, i + 1)
  {
    hide FitsBeside, UseOf, Use.NonNegative;
  }

  /** The host that the strategy takes, and none exactly if none suits. */
  method FindHost(ghost s: Setup, hosts: seq<Host>, patternGroups: seq<set<nat>>, useMany: bool, booking: Booking,
                  ghost bs: seq<Booking>, ghost st: State)
    returns (found: Host?)
    requires InBalance(s, bs, st) && booking in bs && booking.host == null && SetOf(hosts) == s.hosts
    ensures found != null ==> found in s.hosts && Chosen(s, hosts, patternGroups, useMany, st, booking, found)
    ensures found == null ==> NoneSuits(s, patternGroups, st, booking)
  {
    hide InBalance, CanApply, FitsBeside, OtherPatternGroups, Preferred;
    found := null;
    ghost var at := 0;
    var i := 0;
    while i < |hosts|
      invariant 0 <= i <= |hosts|
      invariant found != null ==> useMany && found.bookedMembers > 0 && 0 <= at < i && hosts[at] == found
      invariant found != null ==> BestAt(s, hosts, patternGroups, useMany, st, booking, at, i)
      invariant found == null ==> forall j :: 0 <= j < i ==> !Suits(s, patternGroups, st, hosts[j], booking)
    {
      var h := hosts[i];
      assert h in s.hosts;
      var accept := Accepts(s, h, booking, bs, st);
      HostInBalance(s, bs, st, h);
      if found != null { HostInBalance(s, bs, st, found); }
      if accept {
        accept := CompatibleWithAll(s, patternGroups, h, booking);
      }
      if accept {
        if !useMany || h.bookedMembers <= 0 {
          BestNow(s, hosts, patternGroups, useMany, st, booking, at, i);
          return h;
        }
        if found == null || found.bookedMembers > h.bookedMembers {
          NextBest(s, hosts, patternGroups, useMany, st, booking, at, i);
          found, at := h, i;
        } else {
          StillBest(s, hosts, patternGroups, useMany, st, booking, at, i);
        }
      } else if found != null {
        StillBest(s, hosts, patternGroups, useMany, st, booking, at, i);
      }
      i := i + 1;
    }
    if found != null { assert hosts[at] in s.hosts; }
  }

  lemma HostInBalance(s: Setup, bs: seq<Booking>, st: State, h: Host)
    requires InBalance(s, bs, st) && h in s.hosts
    ensures Fits(s) && h in st.hosting && h.bookings == st.hosting[h]
    ensures h in st.free && MembersOn(st, h) == h.bookedMembers
    ensures forall i :: 0 <= i < |h.bookings| ==> h.bookings[i].pattern.members <= s.all
  {
    hide UsedBy, Booked;
    assert HostOk(s, h, st);
    forall i | 0 <= i < |h.bookings|
      ensures h.bookings[i].pattern.members <= s.all
    {
      var b := h.bookings[i];
      assert b in st.hosting[h];
      assert Placed(s, bs, st, b);
      assert OrderOk(s, b, st.order[b]);
    }
  }

  // ------ placing the bookings of one pattern

  /** The bookings still to be placed: they exist, wait for a host, and share the pattern. */
  ghost predicate Waiting(pending: seq<Booking>, pattern: HostPattern, bs: seq<Booking>, st: State) {
    NoRepeats(pending) && forall b :: b in pending ==>
      b in bs && b.pattern == pattern && b in st.order && b !in st.hostOf
  }

  /** A booking that is neither on a host nor waiting for one holds no member. */
  ghost predicate NothingLost(bs: seq<Booking>, st: State, pending: seq<Booking>) {
    forall b :: b in bs && b !in st.hostOf && b !in pending ==>
      b in st.order && forall g :: g in st.order[b] ==> st.order[b][g] == 0
  }

  /** A bound on the steps a list of bookings may still need: each split leaves less. */
  function Weight(pending: seq<Booking>, o: Orders, g: Group): nat {
    if pending == [] then 0
    else Weight(pending[..|pending| - 1], o, g) + Max(2 * Amount(OrderIn(o, pending[|pending| - 1]), g) - 1, 1)
  }

  lemma {:induction false} WeightSame(pending: seq<Booking>, o: Orders, o': Orders, g: Group)
    requires forall b :: b in pending ==> OrderIn(o, b) == OrderIn(o', b)
    ensures Weight(pending, o, g) == Weight(pending, o', g)
  {
    if pending != [] {
      WeightSame(pending[..|pending| - 1], o, o', g);
    }
  }

  lemma {:induction false} WeightFirst(pending: seq<Booking>, o: Orders, g: Group)
    requires pending != []
    ensures Weight(pending, o, g) == Weight(pending[1..], o, g) + Max(2 * Amount(OrderIn(o, pending[0]), g) - 1, 1)
  {
    var init := pending[..|pending| - 1];
    if init != [] {
      WeightFirst(init, o, g);
      assert init[1..] == pending[1..][..|pending| - 2];
    }
  }

  lemma WeightAppend(pending: seq<Booking>, o: Orders, g: Group, b: Booking)
    ensures Weight(pending + [b], o, g) == Weight(pending, o, g) + Max(2 * Amount(OrderIn(o, b), g) - 1, 1)
  {
    assert (pending + [b])[..|pending|] == pending;
  }

  lemma SameHosting(s: Setup, pg: seq<set<nat>>, st: State, st': State)
    requires HostsCompatible(s, pg, st) && st'.hosting == st.hosting
    ensures HostsCompatible(s, pg, st')
  {
  }

  lemma WaitingFirst(s: Setup, bs: seq<Booking>, st: State, pending: seq<Booking>, pattern: HostPattern)
    requires InBalance(s, bs, st) && Waiting(pending, pattern, bs, st) && pending != []
    ensures pending[0] in bs && pending[0] in pending && pending[0].host == null && pending[0].pattern == pattern
  {
  }

  lemma AfterApply(s: Setup, pg: seq<set<nat>>, bs: seq<Booking>, st: State, h: Host, pending: seq<Booking>,
                   pattern: HostPattern, g: Group)
    requires pending != [] && Waiting(pending, pattern, bs, st) && NothingLost(bs, st, pending)
    requires HostsCompatible(s, pg, st)
    requires Suits(s, pg, st, h, pending[0])
    ensures CanApply(s, st, h, pending[0])
    ensures var st' := ApplyStep(st, h, pending[0]);
      && Waiting(pending[1..], pattern, bs, st') && NothingLost(bs, st', pending[1..]) && HostsCompatible(s, pg, st')
      && Weight(pending[1..], st'.order, g) < Weight(pending, st.order, g)
  {
    hide Weight, Amount, FitsBeside;
    var b, st' := pending[0], ApplyStep(st, h, pending[0]);
    WeightFirst(pending, st.order, g);
    forall c | c in bs && c !in st'.hostOf && c !in pending[1..]
      ensures c !in pending
    {
    }
    forall k, j | k in st'.hosting && 0 <= j < |st'.hosting[k]|
      ensures FitsBeside(s, pg, st'.hosting[k][..j], st'.hosting[k][j])
    {
      if k == h && j == |st.hosting[h]| {
        assert st'.hosting[h][..j] == st.hosting[h];
      } else {
        assert st'.hosting[k][..j] == st.hosting[k][..j];
      }
    }
  }

  lemma SplitWeight(st: State, nb: Booking, pending: seq<Booking>, bs: seq<Booking>, pattern: HostPattern, g: Group)
    requires pending != [] && Waiting(pending, pattern, bs, st) && nb !in bs && nb !in st.hostOf
    requires g in pattern.groups && Amount(OrderIn(st.order, pending[0]), g) >= 2 && g in st.order[pending[0]]
    ensures var pending' := pending[1..] + [nb, pending[0]];
      Weight(pending', SplitStep(st, pending[0], nb).order, g) < Weight(pending, st.order, g)
  {
    hide Weight;
    var b, rest, st' := pending[0], pending[1..], SplitStep(st, pending[0], nb);
    WeightFirst(pending, st.order, g);
    WeightSame(rest, st.order, st'.order, g);
    assert rest + [nb, b] == rest + [nb] + [b];
    WeightAppend(rest, st'.order, g, nb);
    WeightAppend(rest + [nb], st'.order, g, b);
  }

  lemma AfterSplit(bs: seq<Booking>, st: State, nb: Booking, pending: seq<Booking>, pattern: HostPattern, g: Group)
    requires pending != [] && Waiting(pending, pattern, bs, st) && NothingLost(bs, st, pending)
    requires nb !in bs && nb !in st.hostOf && nb.pattern == pattern
    requires g in pattern.groups && Amount(OrderIn(st.order, pending[0]), g) >= 2 && g in st.order[pending[0]]
    ensures var st', pending' := SplitStep(st, pending[0], nb), pending[1..] + [nb, pending[0]];
      && Waiting(pending', pattern, bs + [nb], st') && NothingLost(bs + [nb], st', pending')
      && Weight(pending', st'.order, g) < Weight(pending, st.order, g)
  {
    hide Weight, FirstHalf, OtherHalf, Amount, OrderIn;
    var b, rest, st' := pending[0], pending[1..], SplitStep(st, pending[0], nb);
    SplitWeight(st, nb, pending, bs, pattern, g);
    forall c | c in bs + [nb] && c !in st'.hostOf && c !in rest + [nb, b]
      ensures c in bs && c !in pending
    {
    }
  }

  // ------ the run of the loop

  /** The first booking that waits is put on a host, or halved. */
  datatype Step = Put(host: Host) | Halve(half: Booking)

  /** Enough of each group for two bookings. */
  ghost predicate CanHalve(s: Setup, st: State, b: Booking) {
    b in st.order && forall g :: g in b.pattern.members ==>
      g in s.least && g in st.order[b] && st.order[b][g] >= 2 * s.least[g]
  }

  /** It can be halved exactly if two orders that each have the least number of every group make it
      up. */
  lemma CanHalveIff(s: Setup, st: State, b: Booking)
    requires b in st.order && forall g :: g in b.pattern.members ==> g in s.least && g in st.order[b]
    ensures CanHalve(s, st, b) <==>
            exists x: Order, y: Order :: x.Keys == y.Keys == b.pattern.members && MakeUp(s, st.order[b], x, y)
  {
    if CanHalve(s, st, b) {
      var x: Order := map g | g in b.pattern.members :: s.least[g];
      var y: Order := map g | g in b.pattern.members :: st.order[b][g] - s.least[g];
      assert MakeUp(s, st.order[b], x, y);
    }
  }

  ghost predicate MakeUp(s: Setup, o: Order, x: Order, y: Order) {
    forall g :: g in x && g in y && g in s.least ==>
      x[g] >= s.least[g] && y[g] >= s.least[g] && g in o && x[g] + y[g] == o[g]
  }

  /** What the loop does next: the host that the strategy takes gets the booking; only if none
      suits, it is halved. */
  ghost predicate Legal(s: Setup, hosts: seq<Host>, patternGroups: seq<set<nat>>, useMany: bool, st: State,
                        pending: seq<Booking>, step: Step) {
    pending != [] && match step
    case Put(h) => Chosen(s, hosts, patternGroups, useMany, st, pending[0], h)
    case Halve(nb) =>
      && NoneSuits(s, patternGroups, st, pending[0]) && CanHalve(s, st, pending[0]) && pending[0] !in st.hostOf
      && nb !in st.order && nb.pattern == pending[0].pattern
  }

  ghost predicate CanStep(st: State, pending: seq<Booking>, step: Step) {
    && pending != [] && pending[0] in st.order && pending[0] !in st.hostOf
    && (step.Put? ==> step.host in st.free && step.host in st.hosting)
  }

  lemma LegalCan(s: Setup, hosts: seq<Host>, patternGroups: seq<set<nat>>, useMany: bool, st: State,
                 pending: seq<Booking>, step: Step)
    requires Legal(s, hosts, patternGroups, useMany, st, pending, step)
    ensures CanStep(st, pending, step)
  {
    hide FitsBeside, UseOf, Use.NonNegative, NoneSuits, BestAt;
  }

  ghost function StateAfter(st: State, pending: seq<Booking>, step: Step): State
    requires CanStep(st, pending, step)
  {
    match step
    case Put(h) => ApplyStep(st, h, pending[0])
    case Halve(nb) => SplitStep(st, pending[0], nb)
  }

  function WaitingAfter(pending: seq<Booking>, step: Step): seq<Booking>
    requires pending != []
  {
    match step
    case Put(h) => pending[1..]
    case Halve(nb) => pending[1..] + [nb, pending[0]]
  }

  /** From st, with these bookings waiting, the loop comes to st' with those still waiting. */
  ghost predicate Run(s: Setup, hosts: seq<Host>, patternGroups: seq<set<nat>>, useMany: bool, st: State,
                      pending: seq<Booking>, steps: seq<Step>, st': State, pending': seq<Booking>)
    decreases |steps|
  {
    if steps == [] then st == st' && pending == pending'
    else
      && Legal(s, hosts, patternGroups, useMany, st, pending, steps[0]) && CanStep(st, pending, steps[0])
      && Run(s, hosts, patternGroups, useMany, StateAfter(st, pending, steps[0]), WaitingAfter(pending, steps[0]),
             steps[1..], st', pending')
  }

  /** No host suits the booking, and it cannot be halved. */
  ghost predicate Hopeless(s: Setup, patternGroups: seq<set<nat>>, st: State, b: Booking) {
    NoneSuits(s, patternGroups, st, b) && !CanHalve(s, st, b)
  }

  lemma RunNothing(s: Setup, hosts: seq<Host>, patternGroups: seq<set<nat>>, useMany: bool,
                   st: State, pending: seq<Booking>)
    ensures Run(s, hosts, patternGroups, useMany, st, pending, [], st, pending)
  {
  }

  lemma {:induction false} RunMore(s: Setup, hosts: seq<Host>, patternGroups: seq<set<nat>>, useMany: bool, st: State,
                                   pending: seq<Booking>, steps: seq<Step>, st1: State,
                                   pending1: seq<Booking>, step: Step)
    requires Run(s, hosts, patternGroups, useMany, st, pending, steps, st1, pending1)
    requires Legal(s, hosts, patternGroups, useMany, st1, pending1, step) && CanStep(st1, pending1, step)
    ensures Run(s, hosts, patternGroups, useMany, st, pending, steps + [step], StateAfter(st1, pending1, step),
                WaitingAfter(pending1, step))
    decreases |steps|
  {
    hide Legal, StateAfter, WaitingAfter;
    if steps == [] {
      assert (steps + [step])[1..] == [];
    } else {
      assert (steps + [step])[1..] == steps[1..] + [step];
      RunMore(s, hosts, patternGroups, useMany, StateAfter(st, pending, steps[0]), WaitingAfter(pending, steps[0]),
        steps[1..], st1, pending1, step);
    }
  }

  // ------ taking everything back

  lemma RemovedKept(bs: seq<Booking>, st: State, b: Booking, rest: seq<Booking>,
                    pending: seq<Booking>, pending': seq<Booking>)
    requires NothingLost(bs, st, pending) && b in st.order && (b in st.hostOf ==> st.hostOf[b] in st.free)
    requires forall c :: c in pending ==> c == b || c in pending'
    requires st.order[b].Keys == SetOf(b.pattern.groups)
    ensures NothingLost(bs, RemoveStep(st, b, rest), pending')
  {
    hide UseOf;
    var st' := RemoveStep(st, b, rest);
    forall c | c in bs && c !in st'.hostOf && c !in pending'
      ensures c in st'.order && forall g :: g in st'.order[c] ==> st'.order[c][g] == 0
    {
      if c != b { assert c !in pending && c !in st.hostOf; }
    }
  }

  /** One booking is taken away; afterwards it holds nobody. */
  method TakeAway(ghost s: Setup, b: Booking, ghost pending: seq<Booking>, ghost pending': seq<Booking>,
                  ghost bs: seq<Booking>, ghost st: State)
    returns (ghost st': State)
    requires InBalance(s, bs, st) && b in bs && NothingLost(bs, st, pending)
    requires forall c :: c in pending ==> c == b || c in pending'
    modifies b`order, b`host, b.pattern.members`count, b.HostSet()
    ensures InBalance(s, bs, st') && NothingLost(bs, st', pending') && st'.order.Keys == st.order.Keys
    ensures b.host == null
    ensures old(b.host) != null ==> |old(b.host).bookings| < |old(b.host.bookings)|
  {
    hide InBalance, NothingLost, RemoveStep, IsRemoved;
    OrderKeys(s, bs, st, b);
    ghost var h := b.host;
    if h != null { HostNotBooked(s, bs, st, b); }
    ghost var rest;
    rest, st' := Remove(s, b, bs, st);
    RemovedKept(bs, st, b, rest, pending, pending');
    AfterRemoval(s, bs, st, st', b, rest, h);
  }

  lemma AfterRemoval(s: Setup, bs: seq<Booking>, st: State, st': State, b: Booking, rest: seq<Booking>, h: Host?)
    requires b in st.order && (b in st.hostOf ==> st.hostOf[b] in st.free) && Beside(st, b, rest)
    requires st' == RemoveStep(st, b, rest)
    requires InBalance(s, bs, st')
    requires (h != null ==> b in st.hostOf && st.hostOf[b] == h && h in s.hosts && h in st.hosting)
    ensures st'.order.Keys == st.order.Keys && b.host == null
    ensures h != null ==> h.bookings == rest && |rest| < |st.hosting[h]|
  {
    hide UseOf, Balanced;
    assert b in st'.order.Keys;
  }

  /** Takes all bookings away, waiting ones and placed ones. */
  method ResetBookings(ghost s: Setup, hosts: seq<Host>, pending: seq<Booking>, ghost bs: seq<Booking>, ghost st: State)
    returns (ghost st': State)
    requires InBalance(s, bs, st) && SetOf(hosts) == s.hosts && NothingLost(bs, st, pending)
    requires forall b :: b in pending ==> b in bs
    modifies SetOf(bs)`order, SetOf(bs)`host, s.all`count, s.hosts
    ensures InBalance(s, bs, st') && s.Valid() && AllReset(s, st')
  {
    hide InBalance, NothingLost, AllReset;
    st' := st;
    var i := 0;
    while i < |pending|
      invariant 0 <= i <= |pending| && InBalance(s, bs, st') && NothingLost(bs, st', pending[i..])
    {
      HostKnown(s, bs, st', pending[i]);
      st' := TakeAway(s, pending[i], pending[i..], pending[i + 1..], bs, st');
      i := i + 1;
    }
    assert pending[i..] == [];
    i := 0;
    while i < |hosts|
      invariant 0 <= i <= |hosts| && InBalance(s, bs, st') && NothingLost(bs, st', [])
      invariant forall h :: h in hosts[..i] ==> h.bookings == []
    {
      while hosts[i].bookings != []
        invariant InBalance(s, bs, st') && NothingLost(bs, st', [])
        invariant forall h :: h in hosts[..i] ==> h.bookings == []
        decreases |hosts[i].bookings|
      {
        var b := hosts[i].bookings[0];
        assert hosts[i] in s.hosts;
        OnThisHost(s, bs, st', hosts[i], b);
        HostKnown(s, bs, st', b);
        st' := TakeAway(s, b, [], [], bs, st');
      }
      assert hosts[..i + 1] == hosts[..i] + [hosts[i]];
      i := i + 1;
    }
    assert hosts[..i] == hosts;
    EverythingReset(s, bs, st');
  }

  lemma OnThisHost(s: Setup, bs: seq<Booking>, st: State, h: Host, b: Booking)
    requires InBalance(s, bs, st) && h in s.hosts && b in h.bookings
    ensures b in bs && b.host == h
  {
    hide UsedBy, Booked;
    assert HostOk(s, h, st);
    HostedIn(s, bs, st);
    assert b in st.order.Keys;
  }

  lemma EverythingReset(s: Setup, bs: seq<Booking>, st: State)
    requires InBalance(s, bs, st) && NothingLost(bs, st, []) && forall h :: h in s.hosts ==> h.bookings == []
    ensures s.Valid() && AllReset(s, st)
  {
    hide HostOk, OrderOk, CountsOk, AllReset;
    HostedIn(s, bs, st);
    forall b, g | b in bs && g in st.order[b]
      ensures st.order[b][g] == 0
    {
      assert b !in st.hostOf;
    }
    ResetIsStart(s, bs, st);
  }

  lemma HostKnown(s: Setup, bs: seq<Booking>, st: State, b: Booking)
    requires InBalance(s, bs, st) && b in bs
    ensures b in st.hostOf ==> b.host != null && b.host in s.hosts && b.pattern.members <= s.all
    ensures b !in st.hostOf ==> b.host == null
    ensures b.HostSet() <= s.hosts && b.pattern.members <= s.all
    ensures forall c :: c in st.hostOf ==> c in bs
  {
    hide Agrees;
    BookingInBalance(s, bs, st, b);
    assert OrderOk(s, b, st.order[b]);
    HostedIn(s, bs, st);
  }

  /** Puts each booking on a suitable host, halving one that no host takes; fails when such
      a booking cannot be halved, and then takes all bookings away if it is to. */
  method PlaceBookings(ghost s: Setup, hosts: seq<Host>, patternGroups: seq<set<nat>>, useMany: bool,
                       resetOnFailure: bool, pattern: HostPattern, patternBookings: seq<Booking>,
                       ghost bs: seq<Booking>, ghost st: State)
    returns (ok: bool, ghost bs': seq<Booking>, ghost st': State, ghost steps: seq<Step>,
             ghost end: State, ghost waiting: seq<Booking>)
    requires InBalance(s, bs, st) && SetOf(hosts) == s.hosts && pattern.Valid() && pattern.groups != []
    requires Waiting(patternBookings, pattern, bs, st) && NothingLost(bs, st, patternBookings)
    requires HostsCompatible(s, patternGroups, st)
    modifies SetOf(bs)`order, SetOf(bs)`host, s.all`count, s.hosts
    ensures InBalance(s, bs', st') && bs <= bs' && (forall b :: b in bs' ==> b in bs || fresh(b))
    ensures ok ==> HostsCompatible(s, patternGroups, st') && NothingLost(bs', st', [])
    ensures ok || !resetOnFailure ==> st'.count == st.count
    ensures !ok && resetOnFailure ==> s.Valid() && AllReset(s, st')
    ensures ok ==> LackersKept(st, st')
    ensures Run(s, hosts, patternGroups, useMany, st, patternBookings, steps, end, waiting)
    ensures (ok <==> waiting == []) && (ok || !resetOnFailure ==> st' == end)
    ensures !ok ==> Hopeless(s, patternGroups, end, waiting[0])
  {
    hide InBalance, Suits, CanApply, HostsCompatible, NothingLost, Weight, Waiting, AllReset, SplitStep, ApplyStep,
      LackersKept, Run, Legal, CanStep, StateAfter, WaitingAfter, Hopeless;
    LackersSelf(st);
    bs', st' := bs, st;
    ghost var g0 := pattern.groups[0];
    var pending: seq<Booking> := patternBookings;
    steps := [];
    RunNothing(s, hosts, patternGroups, useMany, st, patternBookings);
    while pending != []
      invariant InBalance(s, bs', st') && bs <= bs' && (forall b :: b in bs' ==> b in bs || fresh(b))
      invariant Waiting(pending, pattern, bs', st') && NothingLost(bs', st', pending)
      invariant HostsCompatible(s, patternGroups, st') && st'.count == st.count && LackersKept(st, st')
      invariant Run(s, hosts, patternGroups, useMany, st, patternBookings, steps, st', pending)
      decreases Weight(pending, st'.order, g0)
    {
      ghost var bs1, st1 := bs', st';
      ghost var pending1 := pending;
      ghost var step;
      ok, pending, bs', st', step := PlaceFirst(s, hosts, patternGroups, useMany, pattern, g0, pending, bs', st');
      if !ok {
        end, waiting := st', pending;
        if resetOnFailure {
          WaitingIn(pending, pattern, bs', st');
          st' := ResetBookings(s, hosts, pending, bs', st');
        }
        return;
      }
      LackersThrough(st, st1, st');
      RunMore(s, hosts, patternGroups, useMany, st, patternBookings, steps, st1, pending1, step);
      steps := steps + [step];
    }
    ok, end, waiting := true, st', pending;
  }

  lemma WaitingIn(pending: seq<Booking>, pattern: HostPattern, bs: seq<Booking>, st: State)
    requires Waiting(pending, pattern, bs, st)
    ensures forall b :: b in pending ==> b in bs
  {
  }

  /** The first booking that waits is put on a host, or halved and put back. */
  method PlaceFirst(ghost s: Setup, hosts: seq<Host>, patternGroups: seq<set<nat>>, useMany: bool, pattern: HostPattern,
                    ghost g0: Group, pending: seq<Booking>, ghost bs: seq<Booking>, ghost st: State)
    returns (ok: bool, pending': seq<Booking>, ghost bs': seq<Booking>, ghost st': State, ghost step: Step)
    requires InBalance(s, bs, st) && SetOf(hosts) == s.hosts && pattern.Valid() && g0 in pattern.groups && pending != []
    requires Waiting(pending, pattern, bs, st) && NothingLost(bs, st, pending) && HostsCompatible(s, patternGroups, st)
    modifies SetOf(bs)`order, SetOf(bs)`host, s.all`count, s.hosts
    ensures InBalance(s, bs', st') && bs <= bs' && (forall b :: b in bs' ==> b in bs || fresh(b))
    ensures st'.count == st.count
    ensures Waiting(pending', pattern, bs', st') && NothingLost(bs', st', pending')
    ensures HostsCompatible(s, patternGroups, st')
    ensures LackersKept(st, st')
    ensures ok ==> Legal(s, hosts, patternGroups, useMany, st, pending, step) && CanStep(st, pending, step)
    ensures ok ==> st' == StateAfter(st, pending, step) && pending' == WaitingAfter(pending, step)
    ensures !ok ==> bs' == bs && st' == st && pending' == pending && Hopeless(s, patternGroups, st, pending[0])
    ensures ok ==> Weight(pending', st'.order, g0) < Weight(pending, st.order, g0)
  {
    hide InBalance, Suits, CanApply, HostsCompatible, NothingLost, Weight, Waiting, Whole, Full, SplitStep, Balanced,
      BestAt, CanHalve, NoneSuits;
    bs', st', pending', ok := bs, st, pending, true;
    var booking := pending[0];
    WaitingFirst(s, bs, st, pending, pattern);
    HostKnown(s, bs, st, booking);
    BalancedIn(s, bs, st);
    SplittableIff(s, bs, st, booking);
    var host := FindHost(s, hosts, patternGroups, useMany, booking, bs, st);
    if host == null {
      var nb;
      nb, bs', st' := SplitUnplaced(s, booking, bs, st);
      if nb == null {
        return false, pending, bs, st, Halve(booking);
      }
      assert g0 in pattern.members;
      FullBeforeSplit(s, bs, st, booking, nb);
      AfterSplit(bs, st, nb, pending, pattern, g0);
      SplitSame(st, booking, nb);
      SameHosting(s, patternGroups, st, st');
      var half: Booking := nb;
      pending' := pending[1..] + [half, booking];
      step := Halve(half);
    } else {
      step := Put(host);
      LegalCan(s, hosts, patternGroups, useMany, st, pending, step);
      ChosenSuits(s, hosts, patternGroups, useMany, st, booking, host);
      AfterApply(s, patternGroups, bs, st, host, pending, pattern, g0);
      st' := Apply(s, host, booking, bs, st);
      pending' := pending[1..];
    }
  }

  lemma ChosenSuits(s: Setup, hosts: seq<Host>, patternGroups: seq<set<nat>>, useMany: bool, st: State,
                    b: Booking, h: Host)
    requires Chosen(s, hosts, patternGroups, useMany, st, b, h)
    ensures Suits(s, patternGroups, st, h, b) && CanApply(s, st, h, b)
  {
    hide FitsBeside, CanApply;
  }

  lemma SplittableIff(s: Setup, bs: seq<Booking>, st: State, b: Booking)
    requires InBalance(s, bs, st) && b in bs
    ensures b in st.order && (b.Splittable() <==> CanHalve(s, st, b))
  {
    hide HostOk, CountsOk, Placed;
    assert OrderOk(s, b, st.order[b]);
    BookingInBalance(s, bs, st, b);
    assert b in st.order.Keys;
  }

  lemma BalancedIn(s: Setup, bs: seq<Booking>, st: State)
    requires InBalance(s, bs, st)
    ensures Balanced(s, bs, st)
  {
  }

  lemma FullBeforeSplit(s: Setup, bs: seq<Booking>, st: State, b: Booking, nb: Booking)
    requires Balanced(s, bs, st) && b in bs && nb !in bs && b in st.order && b !in st.hostOf
    requires forall g :: g in b.pattern.members ==> g in st.order[b] && st.order[b][g] >= 2
    ensures LackersKept(st, SplitStep(st, b, nb))
  {
    hide HostOk, Placed, CountsOk, SplitStep, LackersKept;
    assert OrderOk(s, b, st.order[b]);
    LackersSplit(st, b, nb);
  }

  // ------ why a placement fails

  /** The pattern it fails at.  If that is for want of a host: what was placed before, the bookings
      made for the pattern, and how far the loop came with them. */
  datatype Failure = Failure(pattern: HostPattern, bs: seq<Booking>, start: State, bookings: seq<Booking>,
                             steps: seq<Step>, end: State, waiting: seq<Booking>)

  /** From a balanced state in which only the pattern's bookings wait, the loop comes to a booking
      that no host suits and that cannot be halved. */
  ghost predicate WantOfHost(s: Setup, hosts: seq<Host>, patternGroups: seq<set<nat>>, useMany: bool, f: Failure) {
    && Balanced(s, f.bs, f.start) && HostsCompatible(s, patternGroups, f.start)
    && Waiting(f.bookings, f.pattern, f.bs, f.start) && NothingLost(f.bs, f.start, f.bookings)
    && SharedOut(f.bookings, f.pattern.groups, s.size, s.limit, s.least, f.start.order)
    && Run(s, hosts, patternGroups, useMany, f.start, f.bookings, f.steps, f.end, f.waiting)
    && f.waiting != [] && Hopeless(s, patternGroups, f.end, f.waiting[0])
  }

  /** A placement fails for want of a host, or since the members of a bound class cannot be dealt
      out. */
  ghost predicate Fails(s: Setup, hosts: seq<Host>, patternGroups: seq<set<nat>>, useMany: bool,
                        noHost: bool, f: Option<Failure>) {
    f.Some? && f.value.pattern in s.patterns &&
    if noHost then WantOfHost(s, hosts, patternGroups, useMany, f.value)
    else !Dealable(f.value.pattern.groups, s.size, s.limit, s.least)
  }

  /** The members of the pattern's class could be dealt out; if that was not even, some booking
      lacks a group. */
  ghost predicate ClassDone(s: Setup, p: HostPattern, bs: seq<Booking>, st: State) {
    Dealable(p.groups, s.size, s.limit, s.least) && (p !in s.even ==> Lacks(s, p.members, bs, st))
  }

  lemma StillDone(s: Setup, p: HostPattern, bs: seq<Booking>, st: State, bs': seq<Booking>, st': State)
    requires ClassDone(s, p, bs, st) && LackersKept(st, st') && forall b :: b in bs ==> b in bs'
    ensures ClassDone(s, p, bs', st')
  {
    hide Lacks, LackersKept, Dealable;
    if p !in s.even {
      StillLacks(s, p.members, bs, st, bs', st');
    }
  }

  // ------ all patterns of a component, in whatever order they were sorted

  /** In how many of the patterns the group occurs. */
  function Occurrences(patterns: seq<HostPattern>, g: Group): nat {
    if patterns == [] then 0
    else (if g in patterns[0].members then 1 else 0) + Occurrences(patterns[1..], g)
  }

  lemma {:induction false} NoOccurrence(patterns: seq<HostPattern>, g: Group)
    ensures Occurrences(patterns, g) == 0 <==> forall p :: p in patterns ==> g !in p.members
  {
    if patterns != [] {
      NoOccurrence(patterns[1..], g);
      assert patterns == [patterns[0]] + patterns[1..];
    }
  }

  /** The patterns can be booked; any two of them are of the same bound class, or disjoint. */
  ghost predicate AllBookable(s: Setup, patterns: seq<HostPattern>)
    reads s.all`minNum, s.all`maxNum
  {
    && (forall p :: p in patterns ==> p in s.patterns && p.members <= s.all && p.Valid() && p.groups != [])
    && (forall p :: p in patterns ==> forall g :: g in p.members ==> Consistent(g))
    && (forall p, q :: p in patterns && q in patterns ==> p.members == q.members || p.members !! q.members)
  }

  /** The patterns in s.even are those whose groups can be dealt out evenly. */
  ghost predicate EvenKnown(s: Setup) {
    && s.Valid() && s.even <= s.patterns
    && forall p :: p in s.patterns ==> (p in s.even <==> DealtEvenly(p.groups, s.size, s.limit, s.least))
  }

  /** No member of these patterns' groups is booked yet. */
  ghost predicate Unbooked(s: Setup, patterns: seq<HostPattern>, st: State) {
    forall p, g :: p in patterns && g in p.members ==> g in s.size && Left(st, g) == s.size[g]
  }

  /** Groups are counted down once per pattern; those at their last pattern are returned. */
  method LastGroups(pattern: HostPattern, patterns: seq<HostPattern>, seenGroups: map<Group, int>)
    returns (lastGroup: seq<Group>, seenGroups': map<Group, int>)
    requires pattern.Valid() && patterns != [] && patterns[0] == pattern
    requires forall g :: g in pattern.members ==> g in seenGroups && seenGroups[g] == Occurrences(patterns, g)
    ensures NoRepeats(lastGroup)
    ensures forall g :: g in lastGroup <==> g in pattern.members && Occurrences(patterns[1..], g) == 0
    ensures (forall g :: g in pattern.members ==> Occurrences(patterns[1..], g) == 0) ==> lastGroup == pattern.groups
    ensures seenGroups'.Keys == seenGroups.Keys
    ensures forall g :: g in seenGroups ==> seenGroups'[g] == seenGroups[g] - if g in pattern.members then 1 else 0
  {
    lastGroup, seenGroups' := [], seenGroups;
    var groups := pattern.groups;
    var i := 0;
    while i < |groups|
      invariant 0 <= i <= |groups| && NoRepeats(lastGroup)
      invariant forall g :: g in lastGroup <==> g in groups[..i] && Occurrences(patterns[1..], g) == 0
      invariant (forall g :: g in pattern.members ==> Occurrences(patterns[1..], g) == 0) ==> lastGroup == groups[..i]
      invariant seenGroups'.Keys == seenGroups.Keys
      invariant forall g :: g in seenGroups ==> seenGroups'[g] == seenGroups[g] - if g in groups[..i] then 1 else 0
    {
      var g := groups[i];
      assert g in pattern.members && g !in groups[..i] && groups[..i + 1] == groups[..i] + [g];
      if seenGroups'[g] == 1 {
        lastGroup := lastGroup + [g];
      }
      seenGroups' := seenGroups'[g := seenGroups'[g] - 1];
      i := i + 1;
    }
    assert groups[..i] == groups;
  }

  method CountPatterns(patterns: seq<HostPattern>) returns (seenGroups: map<Group, int>)
    requires forall p :: p in patterns ==> p.Valid()
    ensures forall p, g :: p in patterns && g in p.members ==> g in seenGroups
    ensures forall g :: g in seenGroups ==> seenGroups[g] == Occurrences(patterns, g)
  {
    seenGroups := map[];
    var i := |patterns|;
    while i > 0
      invariant 0 <= i <= |patterns|
      invariant forall p, g :: p in patterns[i..] && g in p.members ==> g in seenGroups
      invariant forall g :: g in seenGroups ==> seenGroups[g] == Occurrences(patterns[i..], g)
      invariant forall g: Group :: g !in seenGroups ==> Occurrences(patterns[i..], g) == 0
    {
      i := i - 1;
      assert patterns[i..][0] == patterns[i] && patterns[i..][1..] == patterns[i + 1..];
      seenGroups := seenGroups + map g | g in patterns[i].members :: (if g in seenGroups then seenGroups[g] else 0) + 1;
    }
    assert patterns[0..] == patterns;
  }

  /** The groups that no pattern from here on contains, though an earlier one did, are all
      booked. */
  ghost predicate PastBooked(patterns: seq<HostPattern>, i: nat, st: State)
    requires i <= |patterns|
  {
    forall j :: 0 <= j < i ==>
      forall g :: g in patterns[j].members && Occurrences(patterns[i..], g) == 0 ==> Left(st, g) == 0
  }

  /** Bound classes that no pattern from here on has are done. */
  ghost predicate PastDone(s: Setup, patterns: seq<HostPattern>, i: nat, bs: seq<Booking>, st: State)
    requires i <= |patterns|
  {
    forall j :: 0 <= j < i ==>
      (forall g :: g in patterns[j].members ==> Occurrences(patterns[i..], g) == 0) ==>
      ClassDone(s, patterns[j], bs, st)
  }

  /** Only members of these patterns were booked. */
  ghost predicate OthersKept(s: Setup, patterns: seq<HostPattern>, st: State, st': State) {
    forall g :: g in s.all && (forall p :: p in patterns ==> g !in p.members) ==> Left(st', g) == Left(st, g)
  }

  /** Books and places the groups of one component, each at its last pattern. */
  method PlaceComponent(ghost s: Setup, hosts: seq<Host>, patternGroups: seq<set<nat>>, useMany: bool,
                        resetOnFailure: bool, patterns: seq<HostPattern>, ghost bs: seq<Booking>, ghost st: State)
    returns (ok: bool, noHost: bool, ghost bs': seq<Booking>, ghost st': State, ghost f: Option<Failure>)
    requires InBalance(s, bs, st) && SetOf(hosts) == s.hosts && AllBookable(s, patterns) && EvenKnown(s)
    requires Unbooked(s, patterns, st)
    requires HostsCompatible(s, patternGroups, st) && NothingLost(bs, st, [])
    modifies SetOf(bs)`order, SetOf(bs)`host, s.all`count, s.hosts
    ensures InBalance(s, bs', st') && bs <= bs' && (forall b :: b in bs' ==> b in bs || fresh(b))
    ensures ok ==> HostsCompatible(s, patternGroups, st') && NothingLost(bs', st', [])
    ensures ok ==> forall p, g :: p in patterns && g in p.members ==> Left(st', g) == 0
    ensures ok ==> OthersKept(s, patterns, st, st') && LackersKept(st, st')
    ensures ok ==> forall p :: p in patterns ==> ClassDone(s, p, bs', st')
    ensures !ok ==> Fails(s, hosts, patternGroups, useMany, noHost, f)
    ensures !ok && noHost && resetOnFailure ==> AllReset(s, st')
  {
    hide InBalance, HostsCompatible, NothingLost, Left, EvenKnown, AllBookable, Unbooked, PastBooked, OthersKept,
      AllReset, LackersKept, PastDone, ClassDone, Fails;
    bs', st', ok, noHost, f := bs, st, true, false, None;
    PatternsValid(s, patterns);
    var seenGroups := CountPatterns(patterns);
    NothingPast(s, patterns, bs, st);
    var i := 0;
    while i < |patterns|
      invariant 0 <= i <= |patterns| && InBalance(s, bs', st') && AllBookable(s, patterns) && ok
      invariant bs <= bs' && (forall b :: b in bs' ==> b in bs || fresh(b))
      invariant HostsCompatible(s, patternGroups, st') && NothingLost(bs', st', [])
      invariant forall p, g :: p in patterns && g in p.members ==> g in seenGroups
      invariant forall g :: g in seenGroups ==> seenGroups[g] == Occurrences(patterns[i..], g)
      invariant PastBooked(patterns, i, st') && OthersKept(s, patterns, st, st') && Unbooked(s, patterns[i..], st')
      invariant LackersKept(st, st') && PastDone(s, patterns, i, bs', st')
    {
      FromHere(s, patterns, i);
      ghost var bs1, st1 := bs', st';
      ok, noHost, seenGroups, bs', st', f :=
        PlaceNext(s, hosts, patternGroups, useMany, resetOnFailure, patterns[i..], seenGroups, bs', st');
      if !ok {
        return;
      }
      PastStep(patterns, i, s, st, st1, st');
      LackersThrough(st, st1, st');
      DoneStep(s, patterns, i, bs1, st1, bs', st');
      i := i + 1;
    }
    AllPast(patterns, st');
    AllDone(s, patterns, bs', st');
  }

  lemma PatternsValid(s: Setup, patterns: seq<HostPattern>)
    requires AllBookable(s, patterns)
    ensures forall p :: p in patterns ==> p.Valid()
  {
  }

  lemma NothingPast(s: Setup, patterns: seq<HostPattern>, bs: seq<Booking>, st: State)
    ensures LackersKept(st, st) && PastDone(s, patterns, 0, bs, st)
    ensures PastBooked(patterns, 0, st) && OthersKept(s, patterns, st, st) && patterns[0..] == patterns
  {
  }

  lemma AllPast(patterns: seq<HostPattern>, st: State)
    requires PastBooked(patterns, |patterns|, st)
    ensures forall p, g :: p in patterns && g in p.members ==> Left(st, g) == 0
  {
  }

  lemma AllDone(s: Setup, patterns: seq<HostPattern>, bs: seq<Booking>, st: State)
    requires PastDone(s, patterns, |patterns|, bs, st)
    ensures forall p :: p in patterns ==> ClassDone(s, p, bs, st)
  {
    hide ClassDone;
    forall p | p in patterns
      ensures ClassDone(s, p, bs, st)
    {
      var j :| 0 <= j < |patterns| && patterns[j] == p;
      assert patterns[|patterns|..] == [];
    }
  }

  /** Patterns of the same bound class can be dealt out evenly, or cannot, together. */
  lemma SameClass(s: Setup, patterns: seq<HostPattern>, p: HostPattern, q: HostPattern)
    requires AllBookable(s, patterns) && EvenKnown(s) && p in patterns && q in patterns && p.members == q.members
    ensures p in s.even <==> q in s.even
  {
    hide DealtEvenly, Consistent;
    if DealtEvenly(p.groups, s.size, s.limit, s.least) {
      SameClassSameDeal(p.groups, q.groups, s.size, s.limit, s.least);
    }
    if DealtEvenly(q.groups, s.size, s.limit, s.least) {
      SameClassSameDeal(q.groups, p.groups, s.size, s.limit, s.least);
    }
  }

  lemma DoneWithClass(s: Setup, patterns: seq<HostPattern>, p: HostPattern, q: HostPattern, bs: seq<Booking>, st: State)
    requires AllBookable(s, patterns) && EvenKnown(s) && p in patterns && q in patterns && p.members == q.members
    requires ClassDone(s, p, bs, st)
    ensures ClassDone(s, q, bs, st)
  {
    hide DealtEvenly, Consistent, Dealable, Lacks;
    SameClass(s, patterns, p, q);
    SameClassDealable(p.groups, q.groups, s.size, s.limit, s.least);
  }

  lemma DoneStep(s: Setup, patterns: seq<HostPattern>, i: nat, bs: seq<Booking>, st: State,
                 bs': seq<Booking>, st': State)
    requires i < |patterns| && AllBookable(s, patterns) && EvenKnown(s) && PastDone(s, patterns, i, bs, st)
    requires LackersKept(st, st') && forall b :: b in bs ==> b in bs'
    requires LastOf(patterns[i..]) != {} ==> ClassDone(s, patterns[i], bs', st')
    ensures PastDone(s, patterns, i + 1, bs', st')
  {
    hide ClassDone, LackersKept, EvenKnown, Consistent;
    assert patterns[i..][1..] == patterns[i + 1..] && patterns[i..][0] == patterns[i];
    forall j | 0 <= j < i + 1
      && forall g :: g in patterns[j].members ==> Occurrences(patterns[i + 1..], g) == 0
      ensures ClassDone(s, patterns[j], bs', st')
    {
      assert patterns[j] in patterns && patterns[i] in patterns;
      assert patterns[i].groups[0] in patterns[i].members;
      if forall g :: g in patterns[j].members ==> g !in patterns[i].members {
        StillDone(s, patterns[j], bs, st, bs', st');
      } else {
        var g :| g in patterns[j].members && g in patterns[i].members;
        assert g in LastOf(patterns[i..]);
        DoneWithClass(s, patterns, patterns[i], patterns[j], bs', st');
      }
    }
  }

  lemma FromHere(s: Setup, patterns: seq<HostPattern>, i: nat)
    requires AllBookable(s, patterns) && i < |patterns|
    ensures patterns[i..] != [] && patterns[i..][0] == patterns[i] && patterns[i..][1..] == patterns[i + 1..]
    ensures AllBookable(s, patterns[i..]) && patterns[i] in patterns && patterns[i].members <= s.all
  {
  }

  /** The groups whose last pattern is the first of these. */
  ghost function LastOf(patterns: seq<HostPattern>): set<Group>
    requires patterns != []
  {
    set g | g in patterns[0].members && Occurrences(patterns[1..], g) == 0
  }

  /** Only these groups were booked. */
  ghost predicate OnlyBooked(s: Setup, gs: set<Group>, st: State, st': State) {
    forall g :: g in s.all && g !in gs ==> Left(st', g) == Left(st, g)
  }

  lemma PastStep(patterns: seq<HostPattern>, i: nat, s: Setup, st0: State, st: State, st': State)
    requires i < |patterns| && PastBooked(patterns, i, st) && OthersKept(s, patterns, st0, st)
    requires AllBookable(s, patterns)
    requires Unbooked(s, patterns[i..], st) && OnlyBooked(s, LastOf(patterns[i..]), st, st')
    requires forall g :: g in LastOf(patterns[i..]) ==> Left(st', g) == 0
    ensures PastBooked(patterns, i + 1, st') && OthersKept(s, patterns, st0, st') && Unbooked(s, patterns[i + 1..], st')
  {
    hide Left, Consistent;
    assert patterns[i..][1..] == patterns[i + 1..] && patterns[i..][0] == patterns[i];
    forall j | 0 <= j < |patterns|
      ensures patterns[j] in patterns && patterns[j].members <= s.all
    {
    }
    forall p, g | p in patterns[i + 1..] && g in p.members
      ensures g !in LastOf(patterns[i..]) && p in patterns[i..] && g in s.all
    {
      NoOccurrence(patterns[i + 1..], g);
      assert p in patterns;
    }
    assert patterns[i] in patterns;
  }

  /** If one of the first pattern's groups is at its last pattern, all are. */
  lemma ClassTogether(s: Setup, patterns: seq<HostPattern>, st: State, lastGroup: seq<Group>)
    requires patterns != [] && AllBookable(s, patterns) && EvenKnown(s) && Unbooked(s, patterns, st)
    requires st.count.Keys == s.all
    requires forall g :: g in lastGroup <==> g in patterns[0].members && Occurrences(patterns[1..], g) == 0
    requires (forall g :: g in patterns[0].members ==> Occurrences(patterns[1..], g) == 0) ==>
      lastGroup == patterns[0].groups
    requires lastGroup != []
    ensures lastGroup == patterns[0].groups
    ensures patterns[0] in s.even <==> DealtEvenly(lastGroup, st.count, s.limit, s.least)
    ensures forall g :: g in lastGroup ==> g in s.size && g in st.count && st.count[g] == s.size[g]
  {
    hide Consistent, DealtEvenly;
    var p, g0 := patterns[0], lastGroup[0];
    assert g0 in lastGroup && p in patterns;
    forall g | g in p.members
      ensures Occurrences(patterns[1..], g) == 0
    {
      LastWithOthers(s, patterns, g0, g);
    }
    SameDeal(p.groups, s.size, st.count, s.limit, s.least);
  }

  lemma LastWithOthers(s: Setup, patterns: seq<HostPattern>, g0: Group, g: Group)
    requires patterns != [] && AllBookable(s, patterns) && g0 in patterns[0].members && g in patterns[0].members
    requires Occurrences(patterns[1..], g0) == 0
    ensures Occurrences(patterns[1..], g) == 0
  {
    hide Consistent;
    NoOccurrence(patterns[1..], g0);
    NoOccurrence(patterns[1..], g);
    forall q | q in patterns[1..]
      ensures g !in q.members
    {
      assert q in patterns && g0 !in q.members;
    }
  }

  lemma SameDeal(gs: seq<Group>, size: map<Group, int>, size': map<Group, int>,
                 limit: map<Group, Option<Positive>>, least: map<Group, Positive>)
    requires forall g :: g in gs ==> g in size' && g in size && size'[g] == size[g]
    ensures DealtEvenly(gs, size, limit, least) <==> DealtEvenly(gs, size', limit, least)
  {
    hide CeilDiv, Needed;
    if forall g :: g in gs ==> g in limit && size[g] > 0 {
      SameNeed(gs, size, size', limit);
    }
  }

  lemma SameDealable(gs: seq<Group>, size: map<Group, int>, size': map<Group, int>,
                     limit: map<Group, Option<Positive>>, least: map<Group, Positive>)
    requires forall g :: g in gs ==> g in size' && g in size && size'[g] == size[g]
    ensures Dealable(gs, size, limit, least) <==> Dealable(gs, size', limit, least)
  {
    hide CeilDiv, Needed, Enough, LeftAfter;
    if forall g :: g in gs ==> g in limit && size[g] > 0 {
      SameNeed(gs, size, size', limit);
    }
  }

  lemma SameShares(bookings: seq<Booking>, gs: seq<Group>, size: map<Group, int>, size': map<Group, int>,
                   limit: map<Group, Option<Positive>>, least: map<Group, Positive>, order: Orders)
    requires forall g :: g in gs ==> g in size' && g in size && size'[g] == size[g]
    requires SharedOut(bookings, gs, size, limit, least, order)
    ensures SharedOut(bookings, gs, size', limit, least, order)
  {
    hide CeilDiv, Needed, Share, LeftAfter, Amount, OrderIn, Max;
    SameNeed(gs, size, size', limit);
  }

  lemma {:induction false} SameNeed(gs: seq<Group>, size: map<Group, int>,
                                    size': map<Group, int>, limit: map<Group, Option<Positive>>)
    requires forall g :: g in gs ==> g in size && g in size' && g in limit && size[g] == size'[g] > 0
    ensures Needed(gs, size, limit) == Needed(gs, size', limit)
  {
    hide CeilDiv;
    if gs != [] {
      assert gs == gs[..|gs| - 1] + [gs[|gs| - 1]];
      SameNeed(gs[..|gs| - 1], size, size', limit);
    }
  }

  /** One pattern: its groups are counted down, and the ones it is the last pattern of are
      booked. */
  method PlaceNext(ghost s: Setup, hosts: seq<Host>, patternGroups: seq<set<nat>>, useMany: bool, resetOnFailure: bool,
                   patterns: seq<HostPattern>, seenGroups: map<Group, int>, ghost bs: seq<Booking>, ghost st: State)
    returns (ok: bool, noHost: bool, seenGroups': map<Group, int>, ghost bs': seq<Booking>,
             ghost st': State, ghost f: Option<Failure>)
    requires InBalance(s, bs, st) && SetOf(hosts) == s.hosts && patterns != [] && AllBookable(s, patterns)
    requires EvenKnown(s) && Unbooked(s, patterns, st)
    requires HostsCompatible(s, patternGroups, st) && NothingLost(bs, st, [])
    requires forall g :: g in patterns[0].members ==> g in seenGroups && seenGroups[g] == Occurrences(patterns, g)
    modifies SetOf(bs)`order, SetOf(bs)`host, s.all`count, s.hosts
    ensures InBalance(s, bs', st') && bs <= bs' && (forall b :: b in bs' ==> b in bs || fresh(b))
    ensures ok ==> HostsCompatible(s, patternGroups, st') && NothingLost(bs', st', [])
    ensures ok ==> (forall g :: g in LastOf(patterns) ==> Left(st', g) == 0) && OnlyBooked(s, LastOf(patterns), st, st')
    ensures ok ==> LackersKept(st, st')
    ensures ok && LastOf(patterns) != {} ==> ClassDone(s, patterns[0], bs', st')
    ensures !ok ==> Fails(s, hosts, patternGroups, useMany, noHost, f)
    ensures !ok && noHost && resetOnFailure ==> s.Valid() && AllReset(s, st')
    ensures seenGroups'.Keys == seenGroups.Keys
    ensures forall g :: g in seenGroups ==> seenGroups'[g] == seenGroups[g] - if g in patterns[0].members then 1 else 0
  {
    hide InBalance, HostsCompatible, NothingLost, Left, Occurrences, EvenKnown, Unbooked, Consistent, AllReset,
      LackersKept, ClassDone, Fails, DealtEvenly;
    bs', st', ok, noHost := bs, st, true, false;
    f := None;
    LackersSelf(st);
    assert patterns[0] in patterns;
    CountsOfAll(s, bs, st);
    var lastGroup;
    lastGroup, seenGroups' := LastGroups(patterns[0], patterns, seenGroups);
    if lastGroup != [] {
      ClassTogether(s, patterns, st, lastGroup);
      ok, noHost, bs', st', f :=
        PlacePattern(s, hosts, patternGroups, useMany, resetOnFailure, patterns[0], lastGroup, bs, st);
    }
  }

  lemma CountsOfAll(s: Setup, bs: seq<Booking>, st: State)
    requires InBalance(s, bs, st)
    ensures s.Valid() && st.count.Keys == s.all
  {
  }

  /** Generates the bookings of one pattern and places them. */
  method PlacePattern(ghost s: Setup, hosts: seq<Host>, patternGroups: seq<set<nat>>, useMany: bool,
                      resetOnFailure: bool, pattern: HostPattern, lastGroup: seq<Group>,
                      ghost bs: seq<Booking>, ghost st: State)
    returns (ok: bool, noHost: bool, ghost bs': seq<Booking>, ghost st': State, ghost f: Option<Failure>)
    requires InBalance(s, bs, st) && SetOf(hosts) == s.hosts && Bookable(s, pattern) && s.Valid()
    requires lastGroup == pattern.groups != []
    requires pattern in s.even <==> DealtEvenly(lastGroup, st.count, s.limit, s.least)
    requires forall g :: g in lastGroup ==> g in s.size && g in st.count && st.count[g] == s.size[g]
    requires HostsCompatible(s, patternGroups, st) && NothingLost(bs, st, [])
    modifies SetOf(bs)`order, SetOf(bs)`host, s.all`count, s.hosts
    ensures InBalance(s, bs', st') && bs <= bs' && (forall b :: b in bs' ==> b in bs || fresh(b))
    ensures ok ==> HostsCompatible(s, patternGroups, st') && NothingLost(bs', st', [])
    ensures ok ==> forall g :: g in lastGroup ==> Left(st', g) == 0
    ensures ok ==> forall g :: g in s.all && g !in lastGroup ==> Left(st', g) == Left(st, g)
    ensures ok ==> LackersKept(st, st') && ClassDone(s, pattern, bs', st')
    ensures !ok ==> Fails(s, hosts, patternGroups, useMany, noHost, f)
    ensures !ok && noHost && resetOnFailure ==> s.Valid() && AllReset(s, st')
  {
    hide InBalance, HostsCompatible, NothingLost, Waiting, DealtEvenly, AllCarry, AllReset, LackersKept, Lacks,
      SomeLack, SomeLimit, SharedOut, Dealable, Run, Hopeless, Balanced;
    noHost := false;
    f := Some(Failure(pattern, bs, st, [], [], st, []));
    SameDealable(lastGroup, st.count, s.size, s.limit, s.least);
    BookingsKnown(s, bs, st);
    assert pattern in s.even ==> Evenly(s, pattern, lastGroup, st);
    var patternBookings;
    ok, patternBookings, bs', st' := BookingGen(s, pattern, lastGroup, bs, st);
    if ok {
      ghost var bs1, st1 := bs', st';
      AfterGen(s, patternGroups, bs, st, bs', st', patternBookings, pattern);
      if pattern !in s.even {
        LacksFromStart(s, pattern, patternBookings, bs', st');
      }
      SameShares(patternBookings, lastGroup, st.count, s.size, s.limit, s.least, st1.order);
      BalancedIn(s, bs1, st1);
      ghost var steps, end, waiting;
      ok, bs', st', steps, end, waiting :=
        PlaceBookings(s, hosts, patternGroups, useMany, resetOnFailure, pattern, patternBookings, bs', st');
      noHost, f := !ok, Some(Failure(pattern, bs1, st1, patternBookings, steps, end, waiting));
      if ok {
        LackersThrough(st, st1, st');
        if pattern !in s.even {
          StillLacks(s, pattern.members, bs1, st1, bs', st');
        }
      }
    }
  }

  /** A booking as generated lacks a group. */
  lemma LacksFromStart(s: Setup, pattern: HostPattern, bookings: seq<Booking>, bs: seq<Booking>, st: State)
    requires InBalance(s, bs, st) && Unplaced(bookings, pattern, bs, st) && pattern.Valid()
    requires SomeLack(bookings, pattern.groups, st.order) && SomeLimit(pattern.groups, s.limit)
    ensures Lacks(s, pattern.members, bs, st)
  {
    hide InBalance, LacksSome;
    var b :| b in bookings && LacksSome(OrderIn(st.order, b), pattern.groups);
    OrderKeys(s, bs, st, b);
    NotWhole(st.order[b], pattern.groups);
    assert Lacker(pattern.members, st, b);
  }

  lemma NotWhole(o: Order, gs: seq<Group>)
    requires o.Keys == SetOf(gs) && LacksSome(o, gs)
    ensures !Whole(o)
  {
  }

  lemma AfterGen(s: Setup, pg: seq<set<nat>>, bs: seq<Booking>, st: State, bs': seq<Booking>, st': State,
                 bookings: seq<Booking>, pattern: HostPattern)
    requires InBalance(s, bs', st') && Extends(bs, st, bs', st') && bs' == bs + bookings
    requires Unplaced(bookings, pattern, bs', st')
    requires HostsCompatible(s, pg, st) && NothingLost(bs, st, []) && st.order.Keys == SetOf(bs)
    ensures LackersKept(st, st')
    ensures Waiting(bookings, pattern, bs', st') && NothingLost(bs', st', bookings) && HostsCompatible(s, pg, st')
  {
    hide FitsBeside, Agrees, HostOk, OrderOk, Placed, Booked;
    SameHosting(s, pg, st, st');
    forall i, j | 0 <= i < j < |bookings|
      ensures bookings[i] != bookings[j]
    {
      assert bs'[|bs| + i] == bookings[i] && bs'[|bs| + j] == bookings[j];
    }
  }
}
