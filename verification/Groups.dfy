/** Node groups and the contracts between them. */
module Groups {
  import opened MaximalSets

  datatype Option<+T> = None | Some(value: T)

  type Positive = n: int | n > 0 witness 1

  datatype Link = Exclusion | Bound

  datatype Arch = Arch32 | Arch64

  datatype Prototype = Prototype(reqDisc: nat, reqRAM: nat)

  /** A group-group contract; both groups know it. */
  class Contract {
    const link: Link
    const groupA: Group
    const groupB: Group

    constructor (link: Link, groupA: Group, groupB: Group, ghost all: set<Group>)
      modifies groupA, groupB
      ensures this.link == link && this.groupA == groupA && this.groupB == groupB
      ensures groupA.contracts == old(groupA.contracts) + {this}
      ensures groupB.contracts == old(groupB.contracts) + {this}
      ensures groupA.maxNum == if groupA == groupB && link == Exclusion then Some(1) else old(groupA.maxNum)
      ensures groupA.minNum == if groupA == groupB && link == Bound then Some(2) else old(groupA.minNum)
      ensures groupB.maxNum == if groupA == groupB && link == Exclusion then Some(1) else old(groupB.maxNum)
      ensures groupB.minNum == if groupA == groupB && link == Bound then Some(2) else old(groupB.minNum)
      ensures groupA.count == old(groupA.count) && groupB.count == old(groupB.count)
      ensures old(Wired(all) && SelfLimited(all)) && groupA in all && groupB in all ==> Wired(all) && SelfLimited(all)
    {
      this.link := link;
      this.groupA := groupA;
      this.groupB := groupB;
      new;
      if groupA == groupB && link == Exclusion {
        groupA.maxNum := Some(1);
      }
      if groupA == groupB && link == Bound {
        groupA.minNum := Some(2);
      }
      groupA.contracts := groupA.contracts + {this};
      groupB.contracts := groupB.contracts + {this};
    }

    predicate Matches(group: Group) {
      groupA == group || groupB == group
    }

    function OtherGroup(group: Group): (other: Group)
      requires Matches(group)
    {
      if group == groupA then groupB else groupA
    }
  }

  /** Every contract of a group is between members of all, and both of them hold it. */
  ghost predicate Wired(all: set<Group>)
    reads all
  {
    forall g, c | g in all && c in g.contracts ::
      c.Matches(g) && c.groupA in all && c.groupB in all && c in c.groupA.contracts && c in c.groupB.contracts
  }

  /** A group excluded from itself has at most one member per host, a group bound to itself at
      least two. */
  ghost predicate SelfLimited(all: set<Group>)
    reads all
  {
    forall g :: g in all ==>
      (Linked(g, g, Exclusion) ==> g.maxNum == Some(1)) && (Linked(g, g, Bound) ==> g.minNum == Some(2))
  }

  lemma WithoutContracts(all: set<Group>)
    requires forall g :: g in all ==> g.contracts == {}
    ensures Wired(all) && SelfLimited(all)
  {
  }

  ghost predicate Linked(g: Group, h: Group, link: Link)
    reads g
  {
    exists c | c in g.contracts :: c.Matches(g) && c.link == link && c.OtherGroup(g) == h
  }

  ghost function Pairs(all: set<Group>, link: Link): set<(Group, Group)>
    reads all
  {
    set g, h | g in all && h in all && Linked(g, h, link) :: (g, h)
  }

  /** The two relations that the contracts among all define. */
  ghost function GraphOf(all: set<Group>): Graph<Group>
    reads all
  {
    Graph(all, Pairs(all, Bound), Pairs(all, Exclusion))
  }

  /** Groups joined by any contract at all. */
  ghost function ContractGraph(all: set<Group>): Graph<Group>
    reads all
  {
    Graph(all, Pairs(all, Bound) + Pairs(all, Exclusion), {})
  }

  lemma LinkedBothWays(all: set<Group>, g: Group, h: Group, link: Link)
    requires Wired(all) && g in all && Linked(g, h, link)
    ensures h in all && Linked(h, g, link)
  {
    var c :| c in g.contracts && c.Matches(g) && c.link == link && c.OtherGroup(g) == h;
    assert c in h.contracts && c.OtherGroup(h) == g;
  }

  lemma GraphsSymmetric(all: set<Group>)
    requires Wired(all)
    ensures GraphOf(all).Symmetric() && ContractGraph(all).Symmetric()
  {
    forall g, h, link | g in all && h in all && Linked(g, h, link)
      ensures (h, g) in Pairs(all, link)
    {
      LinkedBothWays(all, g, h, link);
    }
  }

  class Group {
    const name: string
    var contracts: set<Contract>
    var maxNum: Option<Positive>
    var minNum: Option<Positive>
    const prototypes: map<Arch, Prototype>
    var count: int

    constructor (name: string, count: nat, prototypes: map<Arch, Prototype>)
      ensures contracts == {} && maxNum == None && minNum == None
      ensures this.count == count && this.prototypes == prototypes && this.name == name
    {
      this.name := name;
      this.count := count;
      this.prototypes := prototypes;
      contracts := {};
      maxNum := None;
      minNum := None;
    }

    /** Depth-first search along bound contracts, from a set of groups seen before. */
    method GetBound(setOfBound: set<Group>, ghost all: set<Group>) returns (r: set<Group>)
      requires this in all && Wired(all) && setOfBound <= all
      ensures setOfBound + {this} <= r <= all
      ensures forall p :: p in GraphOf(all).bound && p.0 in r && p.0 !in setOfBound ==> p.1 in r
      ensures forall t | t <= all :: GraphOf(all).Closed(t) && this in t ==> r <= setOfBound + t
      decreases all - setOfBound
    {
      r := setOfBound;
      if this !in r {
        r := r + {this};
        var todo := contracts;
        while todo != {}
          invariant todo <= contracts && setOfBound + {this} <= r <= all
          invariant forall p :: p in GraphOf(all).bound && p.0 in r && p.0 !in setOfBound + {this} ==> p.1 in r
          invariant forall c :: c in contracts - todo && c.link == Bound ==> c.OtherGroup(this) in r
          invariant forall t | t <= all :: GraphOf(all).Closed(t) && this in t ==> r <= setOfBound + t
        {
          var contract :| contract in todo;
          todo := todo - {contract};
          if contract.link == Bound {
            assert (this, contract.OtherGroup(this)) in GraphOf(all).bound;
            r := contract.OtherGroup(this).GetBound(r, all);
          }
        }
      }
    }

    /** The same search along contracts of either kind. */
    method GetGroupsWithContract(setOfGroups: set<Group>, ghost all: set<Group>) returns (r: set<Group>)
      requires this in all && Wired(all) && setOfGroups <= all
      ensures setOfGroups + {this} <= r <= all
      ensures forall p :: p in ContractGraph(all).bound && p.0 in r && p.0 !in setOfGroups ==> p.1 in r
      ensures forall t | t <= all :: ContractGraph(all).Closed(t) && this in t ==> r <= setOfGroups + t
      decreases all - setOfGroups
    {
      r := setOfGroups;
      if this !in r {
        r := r + {this};
        var todo := contracts;
        while todo != {}
          invariant todo <= contracts && setOfGroups + {this} <= r <= all
          invariant forall p :: p in ContractGraph(all).bound && p.0 in r && p.0 !in setOfGroups + {this} ==> p.1 in r
          invariant forall c :: c in contracts - todo ==> c.OtherGroup(this) in r
          invariant forall t | t <= all :: ContractGraph(all).Closed(t) && this in t ==> r <= setOfGroups + t
        {
          var contract :| contract in todo;
          todo := todo - {contract};
          assert (this, contract.OtherGroup(this)) in Pairs(all, contract.link);
          r := contract.OtherGroup(this).GetGroupsWithContract(r, all);
        }
      }
    }
  }
}
