/** The enumeration of compatible group sets ("containers") per connected component. */
module Containers {
  import opened MaximalSets
  import opened Groups

  class Container {
    var groups: set<Group>

    constructor ()
      ensures groups == {}
    {
      groups := {};
    }

    predicate ContainsOtherContainer(container: Container)
      reads this, container
    {
      container.groups <= groups
    }

    method AddGroups(more: set<Group>)
      modifies this
      ensures groups == old(groups) + more
    {
      groups := groups + more;
    }

    /** A new container with what is not bound to any of listOfGroups. */
    method Split(listOfGroups: set<Group>, ghost all: set<Group>) returns (newContainer: Container, ghost b: set<Group>)
      requires Wired(all) && listOfGroups <= all
      ensures fresh(newContainer) && GraphOf(all).IsClosure(b, listOfGroups)
      ensures newContainer.groups == groups - b
    {
      var bound: set<Group> := {};
      var todo := listOfGroups;
      while todo != {}
        invariant todo <= listOfGroups && listOfGroups - todo <= bound <= all
        invariant GraphOf(all).Closed(bound)
        invariant forall t | t <= all :: GraphOf(all).Closed(t) && listOfGroups <= t ==> bound <= t
      {
        var group :| group in todo;
        todo := todo - {group};
        bound := group.GetBound(bound, all);
      }
      b := bound;
      newContainer := new Container();
      newContainer.AddGroups(groups - bound);
    }

    /** The members a contract of some other group conflicts with. */
    method CheckAcceptance(contract: Contract) returns (conflict: set<Group>)
      ensures forall g :: g in conflict <==> g in groups && contract.link == Exclusion && contract.Matches(g)
    {
      conflict := {};
      if contract.link == Exclusion {
        var todo := groups;
        while todo != {}
          invariant todo <= groups
          invariant forall g :: g in conflict <==> g in groups - todo && contract.Matches(g)
        {
          var otherGroup :| otherGroup in todo;
          todo := todo - {otherGroup};
          if contract.Matches(otherGroup) {
            conflict := conflict + {otherGroup};
          }
        }
      }
    }
  }

  ghost function Contents(containers: set<Container>): set<set<Group>>
    reads containers
  {
    set c | c in containers :: c.groups
  }

  /** Containers count as equal when their groups are: a set of them holds no two equal. */
  ghost predicate Distinct(containers: set<Container>)
    reads containers
  {
    forall c, d | c in containers && d in containers :: c.groups == d.groups ==> c == d
  }

  /** Adds a container to a set of containers that compares them by their groups. */
  method AddContainer(containers: set<Container>, newContainer: Container) returns (r: set<Container>)
    ensures Distinct(containers) ==> Distinct(r)
    ensures containers <= r <= containers + {newContainer}
    ensures Contents(r) == Contents(containers) + {newContainer.groups}
  {
    if exists c | c in containers :: c.groups == newContainer.groups {
      r := containers;
    } else {
      r := containers + {newContainer};
    }
  }

  /** Everything in the container that a contract of some group of l excludes. */
  method FindConflict(container: Container, l: set<Group>, ghost all: set<Group>) returns (conflict: set<Group>)
    requires Wired(all) && l <= all && container.groups <= all && l !! container.groups
    ensures conflict == GraphOf(all).Conflict(container.groups, l)
  {
    conflict := {};
    var todo := l;
    while todo != {}
      invariant todo <= l
      invariant conflict == GraphOf(all).Conflict(container.groups, l - todo)
    {
      var group :| group in todo;
      ghost var seen := l - todo;
      todo := todo - {group};
      assert l - todo == seen + {group};
      var contracts := group.contracts;
      while contracts != {}
        invariant contracts <= group.contracts
        invariant forall x :: x in conflict <==> (x in GraphOf(all).Conflict(container.groups, seen) ||
            (x in container.groups &&
             exists c | c in group.contracts - contracts :: c.link == Exclusion && c.Matches(x)))
      {
        var contract :| contract in contracts;
        contracts := contracts - {contract};
        var check := container.CheckAcceptance(contract);
        conflict := conflict + check;
      }
      ExcludedByContract(container.groups, seen, group, all);
    }
  }

  lemma ExcludedByContract(s: set<Group>, seen: set<Group>, group: Group, all: set<Group>)
    requires Wired(all) && s <= all && seen <= all && group in all - s
    ensures forall x :: x in GraphOf(all).Conflict(s, seen + {group}) <==> (x in GraphOf(all).Conflict(s, seen) ||
      (x in s && exists c | c in group.contracts :: c.link == Exclusion && c.Matches(x)))
  {
    var graph := GraphOf(all);
    forall x | x in s
      ensures (group, x) in graph.excluded <==> exists c | c in group.contracts :: c.link == Exclusion && c.Matches(x)
    {
      if c :| c in group.contracts && c.link == Exclusion && c.Matches(x) {
        assert c.OtherGroup(group) == x;
      }
    }
  }

  /** What became of one container c: it is now c', beside the new ones. */
  ghost predicate Taken(graph: Graph<Group>, c: set<Group>, l: set<Group>, c': set<Group>, new': set<set<Group>>) {
    if graph.Conflict(c, l) == {} then c' == c + l
    else c' == c && exists b | b <= graph.nodes :: graph.IsClosure(b, graph.Conflict(c, l)) && (c - b) + l in new'
  }

  ghost predicate Comes(graph: Graph<Group>, cs: set<set<Group>>, l: set<Group>, s: set<Group>) {
    exists c | c in cs :: Successor(graph, c, l, s)
  }

  /** A container without conflict takes l; any other stays as it is and a copy with l in
      place of what conflicts is added to the new ones. */
  method TakeClass(container: Container, l: set<Group>, newContainers: set<Container>, ghost all: set<Group>)
    returns (r: set<Container>)
    requires Wired(all) && l <= all && container.groups <= all && l !! container.groups && container !in newContainers
    modifies container
    ensures newContainers <= r && fresh(r - newContainers)
    ensures Contents(newContainers) <= Contents(r)
    ensures Taken(GraphOf(all), old(container.groups), l, container.groups, Contents(r))
    ensures forall s :: s in Contents(r) - Contents(newContainers) ==>
      Successor(GraphOf(all), old(container.groups), l, s)
  {
    hide Wired, GraphOf;
    r := newContainers;
    var conflict := FindConflict(container, l, all);
    if conflict == {} {
      container.AddGroups(l);
    } else {
      var split, b := container.Split(conflict, all);
      split.AddGroups(l);
      r := AddContainer(newContainers, split);
    }
  }

  /** The set union of containers compared by their groups. */
  method AddAll(containers: set<Container>, newContainers: set<Container>) returns (r: set<Container>)
    ensures Distinct(containers) ==> Distinct(r)
    ensures containers <= r <= containers + newContainers
    ensures Contents(r) == Contents(containers) + Contents(newContainers)
  {
    r := containers;
    var rest := newContainers;
    while rest != {}
      invariant rest <= newContainers && containers <= r <= containers + newContainers
      invariant Distinct(containers) ==> Distinct(r)
      invariant Contents(r) == Contents(containers) + Contents(newContainers - rest)
    {
      var newContainer :| newContainer in rest;
      ghost var added := newContainers - rest;
      rest := rest - {newContainer};
      assert newContainers - rest == added + {newContainer};
      OneContainerMore(added, newContainer);
      r := AddContainer(r, newContainer);
    }
    assert newContainers - rest == newContainers;
  }

  lemma OneContainerMore(containers: set<Container>, c: Container)
    ensures Contents(containers + {c}) == Contents(containers) + {c.groups}
  {
  }

  /** Takes one more bound class l into every container. */
  method Process(l: set<Group>, containers: set<Container>, ghost all: set<Group>) returns (r: set<Container>)
    requires Wired(all) && l <= all && Distinct(containers)
    requires forall c :: c in containers ==> c.groups <= all && l !! c.groups
    modifies containers
    ensures Distinct(r) && fresh(r - containers)
    ensures forall s | s in Contents(r) :: Comes(GraphOf(all), old(Contents(containers)), l, s)
    ensures forall s | s <= all :: Comes(GraphOf(all), old(Contents(containers)), l, s) ==> s in Contents(r)
  {
    hide Wired, GraphOf, Taken, Comes, Successor, Distinct;
    ghost var graph := GraphOf(all);
    GraphNodes(all);
    ghost var cs := Contents(containers);
    ghost var was: map<Container, set<Group>> := map c | c in containers :: c.groups;
    WasDistinct(containers, was);
    var newContainers: set<Container> := {};
    var todo: set<Container> := containers;
    while todo != {}
      invariant todo <= containers && newContainers !! containers && fresh(newContainers)
      invariant GraphOf(all) == graph && Wired(all)
      invariant forall c: Container :: c in todo ==> c.groups == was[c]
      invariant forall c: Container :: c in containers - todo ==>
        Taken(graph, was[c], l, c.groups, Contents(newContainers))
      invariant forall s :: s in Contents(newContainers) ==> Comes(graph, cs, l, s)
    {
      var container: Container :| container in todo;
      todo := todo - {container};
      assert container.groups in cs;
      ghost var before := Contents(newContainers);
      newContainers := TakeClass(container, l, newContainers, all);
      ghost var after := Contents(newContainers);
      forall c: Container | c in containers - todo
        ensures Taken(graph, was[c], l, c.groups, after)
      {
        if c != container { TakenStays(graph, was[c], l, c.groups, before, after); }
      }
      forall s | s in after
        ensures Comes(graph, cs, l, s)
      {
        if s !in before { ComesFrom(graph, cs, was[container], l, s); }
      }
    }
    AfterTaking(containers, Contents(newContainers), l, graph, cs, was);
    r := AddAll(containers, newContainers);
  }

  lemma TakenStays(graph: Graph<Group>, c: set<Group>, l: set<Group>, c': set<Group>,
                   new': set<set<Group>>, new'': set<set<Group>>)
    requires Taken(graph, c, l, c', new') && new' <= new''
    ensures Taken(graph, c, l, c', new'')
  {
  }

  lemma ComesFrom(graph: Graph<Group>, cs: set<set<Group>>, c: set<Group>, l: set<Group>, s: set<Group>)
    requires c in cs && Successor(graph, c, l, s)
    ensures Comes(graph, cs, l, s)
  {
  }

  lemma WasDistinct(containers: set<Container>, was: map<Container, set<Group>>)
    requires Distinct(containers) && was.Keys == containers && forall c :: c in containers ==> c.groups == was[c]
    ensures forall c, d | c in containers && d in containers :: was[c] == was[d] ==> c == d
    ensures Contents(containers) == set c | c in containers :: was[c]
  {
  }

  lemma AfterTaking(containers: set<Container>, new': set<set<Group>>, l: set<Group>, graph: Graph<Group>,
                    cs: set<set<Group>>, was: map<Container, set<Group>>)
    requires was.Keys == containers && cs == set c | c in containers :: was[c]
    requires forall c :: c in containers ==> l !! was[c] && Taken(graph, was[c], l, c.groups, new')
    requires forall c, d | c in containers && d in containers :: was[c] == was[d] ==> c == d
    ensures Distinct(containers)
    ensures forall s | s in Contents(containers) :: Comes(graph, cs, l, s)
    ensures forall s | s <= graph.nodes :: Comes(graph, cs, l, s) ==> s in Contents(containers) + new'
  {
    forall c, d | c in containers && d in containers && c.groups == d.groups
      ensures c == d
    {
      assert was[c] == c.groups - l && was[d] == d.groups - l;
    }
    forall s | s in Contents(containers)
      ensures Comes(graph, cs, l, s)
    {
      var c :| c in containers && c.groups == s;
      assert was[c] in cs && Successor(graph, was[c], l, s);
    }
    forall s | s <= graph.nodes && Comes(graph, cs, l, s)
      ensures s in Contents(containers) + new'
    {
      var x :| x in cs && Successor(graph, x, l, s);
      var c :| c in containers && was[c] == x;
      if graph.Conflict(x, l) != {} && s != x {
        var b :| b <= graph.nodes && graph.IsClosure(b, graph.Conflict(x, l)) && s == (x - b) + l;
        var b' :| b' <= graph.nodes && graph.IsClosure(b', graph.Conflict(x, l)) && (x - b') + l in new';
        assert b == b';
      }
    }
  }

  /** No two members of one bound class are excluded from each other. */
  method CheckGroupsConflict(groups: set<Group>, ghost all: set<Group>) returns (ok: bool)
    requires Wired(all) && groups <= all
    ensures ok <==> GraphOf(all).Independent(groups)
  {
    var cp := groups;
    while cp != {}
      invariant cp <= groups
      invariant forall a, b :: a in groups - cp && b in groups && a != b ==> (a, b) !in GraphOf(all).excluded
    {
      GraphsSymmetric(all);
      var item :| item in cp;
      cp := cp - {item};
      var todo := item.contracts;
      while todo != {}
        invariant todo <= item.contracts
        invariant forall c :: c in item.contracts - todo && c.link == Exclusion ==> c.OtherGroup(item) !in cp
      {
        var contract :| contract in todo;
        todo := todo - {contract};
        if contract.link == Exclusion && contract.OtherGroup(item) in cp {
          assert (item, contract.OtherGroup(item)) in GraphOf(all).excluded;
          return false;
        }
      }
    }
    return true;
  }

  /** Drops each container that lies inside a different one. */
  method FinalContainers(containers: set<Container>) returns (final: set<Container>)
    ensures final <= containers
    ensures forall c :: c in containers ==>
      (c in final <==> !exists s | s in Contents(containers) :: s != c.groups && c.groups <= s)
  {
    final := {};
    var todo := containers;
    while todo != {}
      invariant todo <= containers && final <= containers - todo
      invariant forall c :: c in containers - todo ==>
        (c in final <==> !exists s | s in Contents(containers) :: s != c.groups && c.groups <= s)
    {
      var ct :| ct in todo;
      todo := todo - {ct};
      var isSubset := false;
      var others := containers;
      while others != {} && !isSubset
        invariant others <= containers
        invariant isSubset <==> exists d | d in containers - others :: ct.groups != d.groups && ct.groups <= d.groups
      {
        var ctOther :| ctOther in others;
        others := others - {ctOther};
        if ct.groups != ctOther.groups && ctOther.ContainsOtherContainer(ct) {
          isSubset := true;
        }
      }
      if !isSubset {
        final := final + {ct};
        assert forall s | s in Contents(containers) :: exists d | d in containers :: d.groups == s;
      }
    }
  }

  /** The bound class of one group. */
  method BoundClass(item: Group, ghost all: set<Group>) returns (l: set<Group>)
    requires Wired(all) && item in all
    ensures GraphOf(all).IsClass(l, item)
  {
    l := item.GetBound({}, all);
  }

  /** The bound classes of a component, in some order, and whether each is conflict-free. */
  method BoundClasses(items: set<Group>, ghost all: set<Group>)
    returns (ok: bool, groups: seq<set<Group>>, ghost heads: seq<Group>)
    requires Wired(all) && items <= all && GraphOf(all).Closed(items)
    ensures ok ==> IsPartition(GraphOf(all), groups, heads, items)
    ensures ok ==> forall l :: l in groups ==> GraphOf(all).Independent(l)
    ensures ok <==> !HasConflict(GraphOf(all), items)
  {
    hide Wired, IsPartition, Linked;
    ghost var graph := GraphOf(all);
    GraphsSymmetric(all);
    groups, heads := [], [];
    EmptyPartition(graph);
    var rest := items;
    assert items - rest == {};
    while rest != {}
      invariant rest <= items && graph.Closed(rest) && graph == GraphOf(all)
      invariant IsPartition(graph, groups, heads, items - rest)
      invariant forall l :: l in groups ==> graph.Independent(l)
    {
      var item :| item in rest;
      var l := BoundClass(item, all);
      assert l <= rest;
      ClosedOperations(graph, rest, l);
      ExtendPartition(graph, groups, heads, items - rest, l, item);
      assert items - (rest - l) == items - rest + l;
      rest := rest - l;
      ok := CheckGroupsConflict(l, all);
      if !ok {
        return;
      }
      groups, heads := groups + [l], heads + [item];
    }
    ok := true;
    assert items - rest == items;
    NoConflict(graph, groups, heads, items);
  }

  lemma NoConflict(graph: Graph<Group>, ls: seq<set<Group>>, hs: seq<Group>, items: set<Group>)
    requires graph.Symmetric() && IsPartition(graph, ls, hs, items)
    requires forall l :: l in ls ==> graph.Independent(l)
    ensures !HasConflict(graph, items)
  {
    forall l, g | l <= items && g in items && graph.IsClass(l, g)
      ensures graph.Independent(l)
    {
      var i := InUnion(ls, g);
      assert l <= ls[i] && ls[i] in ls;
    }
  }

  /** Some group of items is bound to one it is excluded from. */
  ghost predicate HasConflict(graph: Graph<Group>, items: set<Group>) {
    exists l, g | l <= items && g in items :: graph.IsClass(l, g) && !graph.Independent(l)
  }

  lemma EmptyPartition(graph: Graph<Group>)
    ensures IsPartition(graph, [], [], {})
  {
  }

  lemma ExtendPartition(graph: Graph<Group>, ls: seq<set<Group>>, hs: seq<Group>, done: set<Group>,
                        l: set<Group>, h: Group)
    requires IsPartition(graph, ls, hs, done) && graph.IsClass(l, h) && l !! done
    ensures IsPartition(graph, ls + [l], hs + [h], done + l)
  {
    forall i | 0 <= i < |ls|
      ensures ls[i] !! l
    {
      UnionMembers(ls, i);
    }
    assert (ls + [l])[..|ls|] == ls;
  }

  /** The classes ls, around hs, are disjoint and cover items. */
  ghost predicate IsPartition(graph: Graph<Group>, ls: seq<set<Group>>, hs: seq<Group>, items: set<Group>)
  {
    && |ls| == |hs|
    && (forall i :: 0 <= i < |ls| ==> graph.IsClass(ls[i], hs[i]))
    && (forall i, j :: 0 <= i < j < |ls| ==> ls[i] !! ls[j])
    && Union(ls) == items
  }

  ghost function Union(ls: seq<set<Group>>): set<Group> {
    if ls == [] then {} else Union(ls[..|ls| - 1]) + ls[|ls| - 1]
  }

  lemma {:induction false} UnionMembers(ls: seq<set<Group>>, i: nat)
    requires i < |ls|
    ensures ls[i] <= Union(ls)
  {
    if i < |ls| - 1 {
      UnionMembers(ls[..|ls| - 1], i);
    }
  }

  /** A container's groups as bound classes, in some order. */
  method Splitted(container: Container, ghost all: set<Group>)
    returns (result: seq<set<Group>>, ghost heads: seq<Group>)
    requires Wired(all) && container.groups <= all && GraphOf(all).Closed(container.groups)
    ensures IsPartition(GraphOf(all), result, heads, container.groups)
  {
    hide Wired, IsPartition, Linked;
    ghost var graph := GraphOf(all);
    GraphsSymmetric(all);
    result, heads := [], [];
    EmptyPartition(graph);
    var groups := container.groups;
    assert container.groups - groups == {};
    while groups != {}
      invariant groups <= container.groups && graph.Closed(groups) && graph == GraphOf(all)
      invariant IsPartition(graph, result, heads, container.groups - groups)
    {
      var nextGroup :| nextGroup in groups;
      var nextSet := BoundClass(nextGroup, all);
      assert nextSet <= groups;
      ClosedOperations(graph, groups, nextSet);
      ExtendPartition(graph, result, heads, container.groups - groups, nextSet, nextGroup);
      assert container.groups - (groups - nextSet) == container.groups - groups + nextSet;
      groups := groups - nextSet;
      result, heads := result + [nextSet], heads + [nextGroup];
    }
    assert container.groups - groups == container.groups;
  }

  /** Process, seen as one step of the enumeration. */
  method ProcessNext(l: set<Group>, containers: set<Container>, ghost all: set<Group>,
                     ghost done: set<Group>, ghost h: Group)
    returns (r: set<Container>)
    requires Wired(all) && done <= all && GraphOf(all).Closed(done) && l !! done
    requires GraphOf(all).IsClass(l, h) && GraphOf(all).Independent(l)
    requires Distinct(containers) && Enumerates(GraphOf(all), Contents(containers), done)
    modifies containers
    ensures Distinct(r) && fresh(r - containers) && Enumerates(GraphOf(all), Contents(r), done + l)
  {
    hide GraphOf, Wired, Successor;
    ghost var graph, cs := GraphOf(all), Contents(containers);
    GraphsSymmetric(all);
    GraphNodes(all);
    assert forall c :: c in containers ==> c.groups in cs;
    r := Process(l, containers, all);
    assert graph == GraphOf(all);
    StepKeepsAll(graph, cs, Contents(r), done, l, h);
  }

  lemma GraphNodes(all: set<Group>)
    ensures GraphOf(all).nodes == all && ContractGraph(all).nodes == all
  {
  }

  lemma UnionEmpty(ls: seq<set<Group>>)
    ensures Union(ls[..0]) == {}
  {
  }

  lemma UnionStep(ls: seq<set<Group>>, i: nat)
    requires i < |ls| && forall a, b :: 0 <= a < b < |ls| ==> ls[a] !! ls[b]
    ensures Union(ls[..i + 1]) == Union(ls[..i]) + ls[i] && Union(ls[..i]) !! ls[i]
    ensures ls[i] <= Union(ls)
  {
    DisjointFrom(ls[..i], ls[i]);
    UnionMembers(ls, i);
    assert ls[..i + 1][..i] == ls[..i];
  }

  /** The enumeration over all bound classes of a component. */
  method EnumerateClasses(groups: seq<set<Group>>, ghost heads: seq<Group>,
                          ghost items: set<Group>, ghost all: set<Group>)
    returns (containers: set<Container>)
    requires Wired(all) && items <= all && IsPartition(GraphOf(all), groups, heads, items)
    requires forall l :: l in groups ==> GraphOf(all).Independent(l)
    ensures fresh(containers) && Distinct(containers) && Enumerates(GraphOf(all), Contents(containers), items)
  {
    hide GraphOf, Wired, Enumerates, Union;
    ghost var graph := GraphOf(all);
    GraphsSymmetric(all);
    var first := new Container();
    containers := {first};
    EnumeratesEmpty(graph, Contents(containers));
    var i := 0;
    ghost var done: set<Group> := {};
    UnionEmpty(groups);
    while i < |groups|
      invariant 0 <= i <= |groups| && done == Union(groups[..i]) && done <= items && graph.Closed(done)
      invariant fresh(containers) && Distinct(containers) && GraphOf(all) == graph && Wired(all)
      invariant Enumerates(graph, Contents(containers), done)
    {
      UnionStep(groups, i);
      containers := ProcessNext(groups[i], containers, all, done, heads[i]);
      ClosedOperations(graph, done, groups[i]);
      done := done + groups[i];
      i := i + 1;
    }
    assert groups[..i] == groups;
  }

  /** One connected component: every maximal compatible set of its groups, and no other. */
  method ProcessComponent(items: set<Group>, ghost all: set<Group>) returns (ok: bool, final: set<Container>)
    requires Wired(all) && items <= all && GraphOf(all).Closed(items)
    ensures ok <==> !HasConflict(GraphOf(all), items)
    ensures ok ==> fresh(final) && Distinct(final) && ExactlyMaximal(GraphOf(all), Contents(final), items)
  {
    hide GraphOf, Wired, Enumerates, IsPartition;
    ghost var graph := GraphOf(all);
    GraphNodes(all);
    var groups;
    ghost var heads;
    ok, groups, heads := BoundClasses(items, all);
    if !ok {
      final := {};
      return;
    }
    var containers := EnumerateClasses(groups, heads, items, all);
    final := FinalContainers(containers);
    EnumeratesAll(graph, containers, final, groups, heads, items);
  }

  /** cs is the set of all maximal compatible sets of items, and they cover items. */
  ghost predicate ExactlyMaximal(graph: Graph<Group>, cs: set<set<Group>>, items: set<Group>) {
    && (forall s | s <= items :: s in cs <==> graph.Maximal(s, items))
    && (forall s | s in cs :: s <= items)
    && (forall g :: g in items ==> exists s | s in cs :: g in s)
  }

  lemma EnumeratesEmpty(graph: Graph<Group>, cs: set<set<Group>>)
    requires cs == {{}}
    ensures Enumerates(graph, cs, {})
  {
  }

  lemma {:induction false} DisjointFrom(ls: seq<set<Group>>, l: set<Group>)
    requires forall a :: 0 <= a < |ls| ==> ls[a] !! l
    ensures Union(ls) !! l
  {
    if ls != [] {
      DisjointFrom(ls[..|ls| - 1], l);
    }
  }

  lemma {:induction false} InUnion(ls: seq<set<Group>>, g: Group) returns (i: nat)
    requires g in Union(ls)
    ensures i < |ls| && g in ls[i]
  {
    if g in ls[|ls| - 1] {
      i := |ls| - 1;
    } else {
      i := InUnion(ls[..|ls| - 1], g);
    }
  }

  lemma EnumeratesAll(graph: Graph<Group>, containers: set<Container>, final: set<Container>, ls: seq<set<Group>>,
                      hs: seq<Group>, items: set<Group>)
    requires Enumerates(graph, Contents(containers), items) && items <= graph.nodes
    requires IsPartition(graph, ls, hs, items) && forall l :: l in ls ==> graph.Independent(l)
    requires final <= containers
    requires forall c :: c in containers ==>
      (c in final <==> !exists s | s in Contents(containers) :: s != c.groups && c.groups <= s)
    ensures ExactlyMaximal(graph, Contents(final), items)
  {
    hide Union;
    forall s | s in Contents(containers)
      ensures s in Contents(final) <==> graph.Maximal(s, items)
    {
      FilterKeepsMaximal(graph, Contents(containers), items, s);
      var c :| c in containers && c.groups == s;
    }
    forall g | g in items
      ensures exists s | s in Contents(final) :: g in s
    {
      var i := InUnion(ls, g);
      UnionMembers(ls, i);
      var m := Covered(graph, ls[i], hs[i], items);
      assert ls[i] <= m;
      assert m in Contents(containers);
    }
  }

  /** The components cs, around hs, are disjoint and cover all. */
  ghost predicate Components(all: set<Group>, cs: seq<set<Group>>, hs: seq<Group>, covered: set<Group>)
    reads all
  {
    IsPartition(ContractGraph(all), cs, hs, covered)
  }

  lemma ComponentClosed(all: set<Group>, s: set<Group>)
    requires ContractGraph(all).Closed(s)
    ensures GraphOf(all).Closed(s)
  {
  }

  method Component(item: Group, ghost all: set<Group>) returns (items: set<Group>)
    requires Wired(all) && item in all
    ensures ContractGraph(all).IsClass(items, item) && items <= all && GraphOf(all).Closed(items)
  {
    items := item.GetGroupsWithContract({}, all);
    ComponentClosed(all, items);
  }

  /** All groups: one set of containers for each connected component.  It fails exactly
      when some group is bound to a group it is excluded from. */
  method ProcessGroups(groups: set<Group>)
    returns (ok: bool, containers: seq<set<Container>>, ghost components: seq<set<Group>>, ghost heads: seq<Group>)
    requires Wired(groups)
    ensures ok <==> !HasConflict(GraphOf(groups), groups)
    ensures ok ==> Components(groups, components, heads, groups) && |containers| == |components|
    ensures ok ==> forall i :: 0 <= i < |containers| ==>
      fresh(containers[i]) && Distinct(containers[i])
      && ExactlyMaximal(GraphOf(groups), Contents(containers[i]), components[i])
  {
    hide Wired, GraphOf, ContractGraph, IsPartition, ExactlyMaximal, HasConflict;
    ghost var graph, contractGraph := GraphOf(groups), ContractGraph(groups);
    GraphsSymmetric(groups);
    GraphNodes(groups);
    EmptyPartition(contractGraph);
    containers, components, heads := [], [], [];
    var todo := groups;
    assert groups - todo == {};
    NoConflictEmpty(graph);
    while todo != {}
      invariant todo <= groups && contractGraph.Closed(todo) && graph.Closed(groups - todo)
      invariant graph == GraphOf(groups) && contractGraph == ContractGraph(groups) && Wired(groups)
      invariant IsPartition(contractGraph, components, heads, groups - todo) && |containers| == |components|
      invariant !HasConflict(graph, groups - todo)
      invariant forall i :: 0 <= i < |containers| ==>
        fresh(containers[i]) && Distinct(containers[i]) && ExactlyMaximal(graph, Contents(containers[i]), components[i])
    {
      var item :| item in todo;
      var items := Component(item, groups);
      assert items <= todo;
      ClosedOperations(contractGraph, todo, items);
      ExtendPartition(contractGraph, components, heads, groups - todo, items, item);
      assert groups - (todo - items) == groups - todo + items;
      var final;
      ok, final := ProcessComponent(items, groups);
      ConflictsAdd(graph, groups - todo, items);
      ClosedOperations(graph, groups - todo, items);
      if !ok {
        ConflictsGrow(graph, items, groups);
        return;
      }
      todo := todo - items;
      containers, components, heads := containers + [final], components + [items], heads + [item];
    }
    ok := true;
    assert groups - todo == groups;
  }

  lemma ConflictsGrow(graph: Graph<Group>, s: set<Group>, t: set<Group>)
    requires s <= t && HasConflict(graph, s)
    ensures HasConflict(graph, t)
  {
  }

  lemma NoConflictEmpty(graph: Graph<Group>)
    ensures !HasConflict(graph, {})
  {
  }

  /** A bound class lies within each closed set it meets. */
  lemma ConflictsAdd(graph: Graph<Group>, s: set<Group>, t: set<Group>)
    requires s <= graph.nodes && t <= graph.nodes && graph.Closed(s) && graph.Closed(t)
    ensures HasConflict(graph, s + t) <==> HasConflict(graph, s) || HasConflict(graph, t)
  {
    if HasConflict(graph, s) { ConflictsGrow(graph, s, s + t); }
    if HasConflict(graph, t) { ConflictsGrow(graph, t, s + t); }
    forall l, g | l <= s + t && g in s + t && graph.IsClass(l, g) && !graph.Independent(l)
      ensures HasConflict(graph, s) || HasConflict(graph, t)
    {
      if g in s { assert l <= s; } else { assert l <= t; }
    }
  }
}
