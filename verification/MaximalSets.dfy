/** Maximal compatible sets of nodes: sets closed under one symmetric relation (bound) and
    free of pairs of another (exclusion).  Nothing here knows how they are enumerated. */
module MaximalSets {

  datatype Graph<G> = Graph(nodes: set<G>, bound: set<(G, G)>, excluded: set<(G, G)>) {
    /** Both relations are between nodes, and symmetric. */
    ghost predicate Symmetric() {
      && (forall p :: p in bound ==> p.0 in nodes && p.1 in nodes && (p.1, p.0) in bound)
      && (forall p :: p in excluded ==> p.0 in nodes && p.1 in nodes && (p.1, p.0) in excluded)
    }

    ghost predicate Closed(s: set<G>) {
      forall p :: p in bound && p.0 in s ==> p.1 in s
    }

    /** No two distinct members are excluded from each other. */
    ghost predicate Independent(s: set<G>) {
      forall a, b :: a in s && b in s && a != b ==> (a, b) !in excluded
    }

    /** The members of one bound class: the least closed set around any of them. */
    ghost predicate IsClass(l: set<G>, g: G) {
      && g in l && l <= nodes && Closed(l)
      && forall t | t <= nodes :: Closed(t) && g in t ==> l <= t
    }

    ghost predicate Compatible(s: set<G>, universe: set<G>) {
      s <= universe && Closed(s) && Independent(s)
    }

    /** A union of bound classes within universe, without exclusions between distinct
        members, to which no class can be added. */
    ghost predicate Maximal(s: set<G>, universe: set<G>) {
      && Compatible(s, universe)
      && forall t | t <= universe :: Compatible(t, universe) && s <= t ==> t == s
    }

    /** The members of c that some member of l excludes. */
    ghost function Conflict(c: set<G>, l: set<G>): set<G> {
      set x, g | x in c && g in l && (g, x) in excluded :: x
    }

    /** b is what the bound classes of x's members cover. */
    ghost predicate IsClosure(b: set<G>, x: set<G>) {
      && x <= b && b <= nodes && Closed(b)
      && forall t | t <= nodes :: Closed(t) && x <= t ==> b <= t
    }
  }

  lemma ClassMeets<G>(graph: Graph<G>, l: set<G>, g: G, t: set<G>)
    requires graph.Symmetric() && graph.IsClass(l, g) && t <= graph.nodes && graph.Closed(t) && l * t != {}
    ensures l <= t
  {
    var rest := l - t;
    assert graph.Closed(rest);
    var x :| x in l * t;
    assert g !in t ==> l <= rest;
  }

  lemma ClosedOperations<G>(graph: Graph<G>, s: set<G>, t: set<G>)
    requires graph.Symmetric() && graph.Closed(s) && graph.Closed(t)
    ensures graph.Closed(s + t) && graph.Closed(s - t) && graph.Closed(s * t)
  {
  }

  /** Every compatible set lies in a maximal one. */
  lemma {:induction false} Extend<G>(graph: Graph<G>, s: set<G>, universe: set<G>) returns (m: set<G>)
    requires graph.Compatible(s, universe)
    ensures s <= m && graph.Maximal(m, universe)
    decreases universe - s
  {
    if t :| t <= universe && graph.Compatible(t, universe) && s <= t && t != s {
      assert universe - t < universe - s by {
        assert t - s != {} by { assert t == s + (t - s); }
        var x :| x in t - s;
        assert x in universe - s && x !in universe - t;
      }
      m := Extend(graph, t, universe);
    } else {
      m := s;
    }
  }

  /** What one more class l makes of a container c. */
  ghost predicate Successor<G>(graph: Graph<G>, c: set<G>, l: set<G>, c': set<G>) {
    if graph.Conflict(c, l) == {} then c' == c + l
    else c' == c || exists b | b <= graph.nodes :: graph.IsClosure(b, graph.Conflict(c, l)) && c' == (c - b) + l
  }

  lemma SuccessorCompatible<G>(graph: Graph<G>, c: set<G>, l: set<G>, g: G, c': set<G>, done: set<G>)
    requires graph.Symmetric() && done <= graph.nodes && graph.Compatible(c, done)
    requires graph.IsClass(l, g) && graph.Independent(l) && l !! done
    requires Successor(graph, c, l, c')
    ensures graph.Compatible(c', done + l)
  {
    if c' != c {
      var b := c - c';
      if graph.Conflict(c, l) != {} {
        var b' :| b' <= graph.nodes && graph.IsClosure(b', graph.Conflict(c, l)) && c' == (c - b') + l;
        ClosedOperations(graph, c, b');
        ClosedOperations(graph, c - b', l);
      } else {
        ClosedOperations(graph, c, l);
      }
      forall x, y | x in c' && y in c' && x != y
        ensures (x, y) !in graph.excluded
      {
        assert x in c && y in l && (x, y) in graph.excluded ==> x in graph.Conflict(c, l);
        assert x in l && y in c && (x, y) in graph.excluded ==> y in graph.Conflict(c, l);
      }
    }
  }

  /** A maximal set over the larger universe comes from a maximal set over the smaller. */
  lemma MaximalComesFrom<G>(graph: Graph<G>, m: set<G>, done: set<G>, l: set<G>, g: G) returns (c: set<G>)
    requires graph.Symmetric() && done <= graph.nodes && graph.Closed(done) && l !! done
    requires graph.IsClass(l, g) && graph.Independent(l)
    requires graph.Maximal(m, done + l)
    ensures graph.Maximal(c, done)
    ensures graph.Conflict(c, l) == {} ==> m == c + l
    ensures graph.Conflict(c, l) != {} ==>
      m == c || forall b | b <= graph.nodes :: graph.IsClosure(b, graph.Conflict(c, l)) ==> m == (c - b) + l
  {
    if l * m == {} {
      c := m;
      StaysMaximal(graph, m, done, l, g);
    } else {
      ClassMeets(graph, l, g, m);
      ClosedOperations(graph, m, l);
      c := Extend(graph, m - l, done);
      if graph.Conflict(c, l) == {} {
        SuccessorCompatible(graph, c, l, g, c + l, done);
        assert m <= c + l;
      } else {
        forall b | b <= graph.nodes && graph.IsClosure(b, graph.Conflict(c, l))
          ensures m == (c - b) + l
        {
          SuccessorCompatible(graph, c, l, g, (c - b) + l, done);
          RestAvoidsClosure(graph, m, c, l, b);
          assert m <= (c - b) + l;
        }
      }
    }
  }

  lemma StaysMaximal<G>(graph: Graph<G>, m: set<G>, done: set<G>, l: set<G>, g: G)
    requires graph.Symmetric() && done <= graph.nodes && l !! done && graph.IsClass(l, g) && graph.Independent(l)
    requires graph.Maximal(m, done + l) && l * m == {}
    ensures graph.Maximal(m, done) && graph.Conflict(m, l) != {}
  {
    forall x | x in m
      ensures x in done
    {
      assert x in l ==> x in l * m;
    }
    forall t | t <= done && graph.Compatible(t, done) && m <= t
      ensures t == m
    {
      assert graph.Compatible(t, done + l);
    }
    if graph.Conflict(m, l) == {} {
      SuccessorCompatible(graph, m, l, g, m + l, done);
      assert false;
    }
  }

  /** What m keeps beside l has no conflict with l, so nor has anything bound to it. */
  lemma RestAvoidsClosure<G>(graph: Graph<G>, m: set<G>, c: set<G>, l: set<G>, b: set<G>)
    requires graph.Symmetric() && m <= graph.nodes && graph.Closed(m) && graph.Independent(m) && l <= m
    requires graph.Closed(l)
    requires graph.IsClosure(b, graph.Conflict(c, l)) && l !! c
    ensures (m - l) !! b
  {
    ClosedOperations(graph, m, l);
    ClosedOperations(graph, b, m - l);
    var rest := b - (m - l);
    forall x | x in graph.Conflict(c, l)
      ensures x in rest
    {
    }
    assert b <= rest;
  }

  /** One enumeration step, on the contents of the containers: if cs holds only compatible
      sets and every maximal one, so does cs' after the class l. */
  lemma StepKeepsAll<G>(graph: Graph<G>, cs: set<set<G>>, cs': set<set<G>>, done: set<G>, l: set<G>, g: G)
    requires graph.Symmetric() && done <= graph.nodes && graph.Closed(done) && l !! done
    requires graph.IsClass(l, g) && graph.Independent(l)
    requires Enumerates(graph, cs, done)
    requires forall s | s in cs' :: exists c | c in cs :: Successor(graph, c, l, s)
    requires forall c | c in cs :: forall s | s <= graph.nodes :: Successor(graph, c, l, s) ==> s in cs'
    ensures Enumerates(graph, cs', done + l)
  {
    forall s | s in cs'
      ensures graph.Compatible(s, done + l)
    {
      var c :| c in cs && Successor(graph, c, l, s);
      SuccessorCompatible(graph, c, l, g, s, done);
    }
    forall m | m <= done + l && graph.Maximal(m, done + l)
      ensures m in cs'
    {
      var c := MaximalComesFrom(graph, m, done, l, g);
      assert c in cs;
      if graph.Conflict(c, l) != {} && m != c {
        var b := Closure(graph, graph.Conflict(c, l));
      }
      assert Successor(graph, c, l, m);
    }
  }

  /** cs holds only compatible sets, and every maximal one. */
  ghost predicate Enumerates<G>(graph: Graph<G>, cs: set<set<G>>, done: set<G>) {
    && (forall s :: s in cs ==> graph.Compatible(s, done))
    && (forall m | m <= done :: graph.Maximal(m, done) ==> m in cs)
  }

  /** Every set of nodes has a closure. */
  lemma Closure<G>(graph: Graph<G>, x: set<G>) returns (b: set<G>)
    requires graph.Symmetric() && x <= graph.nodes
    ensures graph.IsClosure(b, x)
  {
    b := Shrink(graph, x, graph.nodes);
  }

  lemma {:induction false} Shrink<G>(graph: Graph<G>, x: set<G>, s: set<G>) returns (b: set<G>)
    requires graph.Symmetric() && x <= s <= graph.nodes && graph.Closed(s)
    ensures graph.IsClosure(b, x)
    decreases s
  {
    if t :| t <= graph.nodes && graph.Closed(t) && x <= t && !(s <= t) {
      ClosedOperations(graph, s, t);
      assert s * t < s;
      b := Shrink(graph, x, s * t);
    } else {
      b := s;
    }
  }

  /** Dropping every set that lies inside another leaves exactly the maximal ones. */
  lemma FilterKeepsMaximal<G>(graph: Graph<G>, cs: set<set<G>>, done: set<G>, s: set<G>)
    requires Enumerates(graph, cs, done) && s in cs
    ensures (exists t | t in cs :: t != s && s <= t) <==> !graph.Maximal(s, done)
  {
    if !graph.Maximal(s, done) {
      var m := Extend(graph, s, done);
      assert m in cs;
    }
  }

  /** Every class is inside some maximal set. */
  lemma Covered<G>(graph: Graph<G>, l: set<G>, g: G, done: set<G>) returns (m: set<G>)
    requires graph.IsClass(l, g) && graph.Independent(l) && l <= done
    ensures graph.Maximal(m, done) && g in m
  {
    m := Extend(graph, l, done);
  }
}
