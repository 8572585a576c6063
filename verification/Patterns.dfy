/** The pattern tables of a placement: the containers of each component, split into host
    patterns and numbered. */
module Patterns {
  import opened MaximalSets
  import opened Groups
  import opened Bookings
  import opened Containers

  /** No member of x is excluded from a different member of y, in either direction. */
  ghost predicate NoneExcluded(graph: Graph<Group>, x: set<Group>, y: set<Group>) {
    forall a, b :: a in x && b in y && a != b ==> (a, b) !in graph.excluded && (b, a) !in graph.excluded
  }

  /** The patterns of one container: disjoint, and free of exclusions within and between. */
  ghost predicate ListOk(graph: Graph<Group>, list: seq<HostPattern>, id: nat, universe: set<Group>) {
    && (forall p :: p in list ==> p.Valid() && p.groups != [] && p.groupedHostPatternID == id && p.members <= universe)
    && (forall i, j :: 0 <= i < j < |list| ==> list[i].members !! list[j].members)
    && (forall p, q :: p in list && q in list ==> NoneExcluded(graph, p.members, q.members))
    && (forall p :: p in list ==> IsBoundClass(graph, p.members))
  }

  ghost predicate IsBoundClass(graph: Graph<Group>, s: set<Group>) {
    exists g | g in s :: graph.IsClass(s, g)
  }

  ghost predicate Covers(list: seq<HostPattern>, g: Group) {
    exists p :: p in list && g in p.members
  }

  /** One component: its container numbers and their pattern lists. */
  ghost predicate ComponentOk(graph: Graph<Group>, universe: set<Group>,
                              ids: set<nat>, lists: map<nat, seq<HostPattern>>) {
    && (forall id :: id in ids ==> id in lists && ListOk(graph, lists[id], id, universe))
    && (forall g :: g in universe ==> exists id :: id in ids && id in lists && Covers(lists[id], g))
  }

  ghost predicate Structured(graph: Graph<Group>, components: seq<set<Group>>,
                             patternGroups: seq<set<nat>>, lists: map<nat, seq<HostPattern>>) {
    && |patternGroups| == |components| && graph.Symmetric()
    && (forall i :: 0 <= i < |components| ==> ComponentOk(graph, components[i], patternGroups[i], lists))
    && (forall i, j :: 0 <= i < j < |components| ==> patternGroups[i] !! patternGroups[j])
    && (forall i, j :: 0 <= i < |components| && 0 <= j < |components| && i != j ==>
         Apart(graph, components[i], components[j]))
    && (forall id :: id in lists ==> exists i :: 0 <= i < |patternGroups| && id in patternGroups[i])
  }

  /** Two components: disjoint, and no contract crosses. */
  ghost predicate Apart(graph: Graph<Group>, x: set<Group>, y: set<Group>) {
    x !! y && NoneExcluded(graph, x, y)
  }

  method Listed(s: set<Group>) returns (l: seq<Group>)
    ensures NoRepeats(l) && SetOf(l) == s
  {
    l := [];
    var rest := s;
    while rest != {}
      invariant rest <= s && NoRepeats(l) && SetOf(l) == s - rest
    {
      var g :| g in rest;
      assert SetOf(l + [g]) == SetOf(l) + {g};
      rest := rest - {g};
      l := l + [g];
    }
  }

  /** The patterns of one container: one for each of its bound classes. */
  method PatternList(container: Container, id: nat, ghost universe: set<Group>, ghost all: set<Group>)
    returns (list: seq<HostPattern>)
    requires Wired(all) && universe <= all && GraphOf(all).Compatible(container.groups, universe)
    ensures ListOk(GraphOf(all), list, id, universe) && fresh(list)
    ensures forall g :: g in container.groups ==> Covers(list, g)
  {
    hide Wired, GraphOf, IsPartition;
    ghost var graph := GraphOf(all);
    GraphsSymmetric(all);
    ghost var heads;
    var parts;
    parts, heads := Splitted(container, all);
    PartsKnown(graph, parts, heads, container.groups);
    list := [];
    var i := 0;
    while i < |parts|
      invariant 0 <= i <= |parts| && |list| == i && fresh(list)
      invariant forall j :: 0 <= j < i ==> FromPart(list[j], id, parts[j])
    {
      var groups := Listed(parts[i]);
      var pattern := new HostPattern(groups, id);
      list := list + [pattern];
      i := i + 1;
    }
    ListFromParts(graph, list, id, parts, heads, container.groups, universe);
  }

  ghost predicate FromPart(p: HostPattern, id: nat, part: set<Group>) {
    p.Valid() && p.groupedHostPatternID == id && p.members == part
  }

  lemma PartsKnown(graph: Graph<Group>, parts: seq<set<Group>>, heads: seq<Group>, items: set<Group>)
    requires IsPartition(graph, parts, heads, items)
    ensures |parts| == |heads| && Union(parts) == items
    ensures forall i :: 0 <= i < |parts| ==>
      heads[i] in parts[i] && parts[i] <= items && graph.IsClass(parts[i], heads[i])
    ensures forall i, j :: 0 <= i < j < |parts| ==> parts[i] !! parts[j]
  {
    forall i | 0 <= i < |parts|
      ensures parts[i] <= items
    {
      UnionMembers(parts, i);
    }
  }

  lemma ListFromParts(graph: Graph<Group>, list: seq<HostPattern>, id: nat, parts: seq<set<Group>>, heads: seq<Group>,
                      items: set<Group>, universe: set<Group>)
    requires graph.Symmetric() && IsPartition(graph, parts, heads, items) && graph.Compatible(items, universe)
    requires |list| == |parts| && forall j :: 0 <= j < |list| ==> FromPart(list[j], id, parts[j])
    ensures ListOk(graph, list, id, universe)
    ensures forall g :: g in items ==> Covers(list, g)
  {
    hide IsPartition, Graph.Symmetric, Graph.Compatible, NoneExcluded, IsBoundClass, Covers;
    PartsKnown(graph, parts, heads, items);
    PatternsCover(list, id, parts, items);
    forall i | 0 <= i < |list|
      ensures list[i].groups != [] && list[i].members <= items <= universe && IsBoundClass(graph, list[i].members)
    {
      CompatibleWithin(graph, items, universe);
      assert heads[i] in list[i].members;
      HeadsClass(graph, parts[i], heads[i]);
    }
    forall p, q | p in list && q in list
      ensures NoneExcluded(graph, p.members, q.members)
    {
      SubsetsPeaceful(graph, items, universe, p.members, q.members);
    }
  }

  lemma HeadsClass(graph: Graph<Group>, part: set<Group>, head: Group)
    requires graph.IsClass(part, head)
    ensures IsBoundClass(graph, part)
  {
  }

  lemma PatternsCover(list: seq<HostPattern>, id: nat, parts: seq<set<Group>>, items: set<Group>)
    requires |list| == |parts| && Union(parts) == items
    requires forall j :: 0 <= j < |list| ==> FromPart(list[j], id, parts[j])
    ensures forall g :: g in items ==> Covers(list, g)
  {
    forall g | g in items
      ensures Covers(list, g)
    {
      var i := InUnion(parts, g);
      assert g in list[i].members;
    }
  }

  lemma CompatibleWithin(graph: Graph<Group>, items: set<Group>, universe: set<Group>)
    requires graph.Compatible(items, universe)
    ensures items <= universe
  {
  }

  lemma SubsetsPeaceful(graph: Graph<Group>, items: set<Group>, universe: set<Group>, x: set<Group>, y: set<Group>)
    requires graph.Symmetric() && graph.Compatible(items, universe) && x <= items && y <= items
    ensures NoneExcluded(graph, x, y)
  {
  }

  /** The patterns of one component; its containers get the next free numbers. */
  method ComponentPatterns(containers: set<Container>, lists: map<nat, seq<HostPattern>>, firstID: nat,
                           ghost universe: set<Group>, ghost all: set<Group>)
    returns (ids: set<nat>, lists': map<nat, seq<HostPattern>>, nextID: nat)
    requires Wired(all) && universe <= all && ExactlyMaximal(GraphOf(all), Contents(containers), universe)
    requires forall id :: id in lists ==> id < firstID
    ensures ComponentOk(GraphOf(all), universe, ids, lists') && ids !! lists.Keys
    ensures lists'.Keys == lists.Keys + ids && (forall id :: id in lists ==> lists'[id] == lists[id])
    ensures forall id :: id in lists' ==> id < nextID
    ensures forall id :: id in ids ==> fresh(lists'[id])
  {
    hide Wired, GraphOf, ListOk, Covers, ExactlyMaximal;
    ghost var graph := GraphOf(all);
    ContainersCompatible(graph, containers, universe);
    ids, lists', nextID := {}, lists, firstID;
    var rest := containers;
    while rest != {}
      invariant rest <= containers && graph == GraphOf(all) && Wired(all) && firstID <= nextID
      invariant forall id :: id in ids ==> firstID <= id && id in lists' && ListOk(graph, lists'[id], id, universe)
      invariant lists'.Keys == lists.Keys + ids && forall id :: id in lists ==> lists'[id] == lists[id]
      invariant forall id :: id in lists' ==> id < nextID
      invariant forall id :: id in ids ==> fresh(lists'[id])
      invariant forall c, g :: c in containers - rest && g in c.groups ==> CoveredBy(ids, lists', g)
    {
      var container :| container in rest;
      ghost var done := containers - rest;
      rest := rest - {container};
      assert containers - rest == done + {container};
      var list := PatternList(container, nextID, universe, all);
      CoveredMore(ids, lists', nextID, list);
      ids, lists' := ids + {nextID}, lists'[nextID := list];
      nextID := nextID + 1;
    }
    CoverAll(graph, containers, universe, ids, lists');
  }

  ghost predicate CoveredBy(ids: set<nat>, lists: map<nat, seq<HostPattern>>, g: Group) {
    exists id :: id in ids && id in lists && Covers(lists[id], g)
  }

  lemma CoveredMore(ids: set<nat>, lists: map<nat, seq<HostPattern>>, id: nat, list: seq<HostPattern>)
    requires id !in lists
    ensures forall g :: CoveredBy(ids, lists, g) || Covers(list, g) ==> CoveredBy(ids + {id}, lists[id := list], g)
  {
    hide Covers;
    var lists' := lists[id := list];
    forall g | CoveredBy(ids, lists, g) || Covers(list, g)
      ensures CoveredBy(ids + {id}, lists', g)
    {
      if CoveredBy(ids, lists, g) {
        var k :| k in ids && k in lists && Covers(lists[k], g);
        assert k in ids + {id} && Covers(lists'[k], g);
      } else {
        assert id in ids + {id} && Covers(lists'[id], g);
      }
    }
  }

  lemma ContainersCompatible(graph: Graph<Group>, containers: set<Container>, universe: set<Group>)
    requires ExactlyMaximal(graph, Contents(containers), universe)
    ensures forall c :: c in containers ==> graph.Compatible(c.groups, universe)
  {
    forall c | c in containers
      ensures graph.Maximal(c.groups, universe)
    {
      assert c.groups in Contents(containers);
    }
  }

  lemma CoverAll(graph: Graph<Group>, containers: set<Container>, universe: set<Group>,
                 ids: set<nat>, lists: map<nat, seq<HostPattern>>)
    requires ExactlyMaximal(graph, Contents(containers), universe)
    requires forall c, g :: c in containers && g in c.groups ==> CoveredBy(ids, lists, g)
    ensures forall g :: g in universe ==> CoveredBy(ids, lists, g)
  {
    hide CoveredBy;
    forall g | g in universe
      ensures CoveredBy(ids, lists, g)
    {
      var s :| s in Contents(containers) && g in s;
      var c :| c in containers && c.groups == s;
    }
  }

  /** The tables for all components. */
  method BuildPatterns(containers: seq<set<Container>>, ghost components: seq<set<Group>>,
                       ghost heads: seq<Group>, ghost all: set<Group>)
    returns (patternGroups: seq<set<nat>>, lists: map<nat, seq<HostPattern>>)
    requires Wired(all) && Components(all, components, heads, all) && |containers| == |components|
    requires forall i :: 0 <= i < |containers| ==> ExactlyMaximal(GraphOf(all), Contents(containers[i]), components[i])
    ensures Structured(GraphOf(all), components, patternGroups, lists)
    ensures forall id :: id in lists ==> fresh(lists[id])
  {
    hide Wired, GraphOf, ContractGraph, ComponentOk, ExactlyMaximal, Apart, IsPartition, Graph.Symmetric;
    ghost var graph := GraphOf(all);
    GraphsSymmetric(all);
    ComponentsApart(all, components, heads);
    patternGroups, lists := [], map[];
    var nextID := 1;
    var i := 0;
    while i < |containers|
      invariant 0 <= i <= |containers| == |components| && |patternGroups| == i && graph == GraphOf(all) && Wired(all)
      invariant graph.Symmetric()
      invariant forall j :: 0 <= j < i ==>
        patternGroups[j] <= lists.Keys && ComponentOk(graph, components[j], patternGroups[j], lists)
      invariant forall j, k :: 0 <= j < k < i ==> patternGroups[j] !! patternGroups[k]
      invariant forall id :: id in lists ==>
        id < nextID && fresh(lists[id]) && exists j :: 0 <= j < i && id in patternGroups[j]
      invariant forall j :: i <= j < |containers| ==> ExactlyMaximal(graph, Contents(containers[j]), components[j])
    {
      var ids;
      ghost var lists0 := lists;
      ids, lists, nextID := ComponentPatterns(containers[i], lists, nextID, components[i], all);
      forall j | 0 <= j < i
        ensures ComponentOk(graph, components[j], patternGroups[j], lists)
      {
        SameLists(graph, components[j], patternGroups[j], lists0, lists);
      }
      patternGroups := patternGroups + [ids];
      i := i + 1;
      assert forall id :: id in ids ==> id in patternGroups[i - 1];
    }
  }

  lemma SameLists(graph: Graph<Group>, universe: set<Group>, ids: set<nat>,
                  lists: map<nat, seq<HostPattern>>, lists': map<nat, seq<HostPattern>>)
    requires ComponentOk(graph, universe, ids, lists) && ids <= lists.Keys
    requires forall id :: id in lists ==> id in lists' && lists'[id] == lists[id]
    ensures ComponentOk(graph, universe, ids, lists')
  {
    hide ListOk, Covers;
  }

  lemma ComponentsApart(all: set<Group>, components: seq<set<Group>>, heads: seq<Group>)
    requires Wired(all) && Components(all, components, heads, all)
    ensures forall i :: 0 <= i < |components| ==> components[i] <= all
    ensures forall i, j :: 0 <= i < |components| && 0 <= j < |components| && i != j ==>
      Apart(GraphOf(all), components[i], components[j])
  {
    hide Wired, Linked;
    GraphsSymmetric(all);
    PartsKnown(ContractGraph(all), components, heads, all);
    forall i, j | 0 <= i < |components| && 0 <= j < |components| && i != j
      ensures Apart(GraphOf(all), components[i], components[j])
    {
      assert ContractGraph(all).Closed(components[i]) && ContractGraph(all).Closed(components[j]);
      assert components[i] !! components[j];
    }
  }
}
