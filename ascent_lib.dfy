/**
 * The native extension (src/lib.rs): `AscentProgram`, a table from relation names
 * to lists of integer facts, and `GraphProgram`, which derives the `path` relation
 * from the `edge` relation by the two Datalog rules of its `ascent!` block.
 */
module Ascent {
  import opened Wrappers

  /** Rust's `i64`. */
  newtype i64 = x: int | -0x8000_0000_0000_0000 <= x < 0x8000_0000_0000_0000

  /** Rust's `i32`. */
  newtype i32 = x: int | -0x8000_0000 <= x < 0x8000_0000

  // ---------------------------------------------------------------------------
  // AscentProgram: the relation table
  // ---------------------------------------------------------------------------

  /** `HashMap<String, Vec<Vec<i64>>>`. */
  type Table = map<string, seq<seq<i64>>>

  /** The facts stored under `name`: the list itself, or an empty list for a name never registered. */
  function Facts(t: Table, name: string): seq<seq<i64>> {
    if name in t then t[name] else []
  }

  /** `relations.insert(name, Vec::new())`: registers the name, emptying any list it had. */
  function Register(t: Table, name: string): (t': Table)
    ensures t'.Keys == t.Keys + {name}
    ensures Facts(t', name) == []
    ensures forall other | other != name :: Facts(t', other) == Facts(t, other)
  {
    t[name := []]
  }

  /** `if let Some(rel) = relations.get_mut(&relation) { rel.push(fact) }`. */
  function Append(t: Table, relation: string, fact: seq<i64>): (t': Table)
    ensures t'.Keys == t.Keys
    ensures relation in t ==> Facts(t', relation) == Facts(t, relation) + [fact]
    ensures relation !in t ==> t' == t
    ensures forall other | other != relation :: Facts(t', other) == Facts(t, other)
  {
    if relation in t then t[relation := t[relation] + [fact]] else t
  }

  /** Registering a relation and then adding facts to it stores exactly those facts, in order. */
  lemma {:induction false} RegisterThenAppend(t: Table, name: string, facts: seq<seq<i64>>)
    ensures Facts(AppendAll(Register(t, name), name, facts), name) == facts
    ensures AppendAll(Register(t, name), name, facts).Keys == t.Keys + {name}
    decreases |facts|
  {
    if |facts| > 0 {
      var n := |facts| - 1;
      RegisterThenAppend(t, name, facts[..n]);
      assert facts[..n] + [facts[n]] == facts;
    }
  }

  /** Adding the facts of `facts` one after the other. */
  function AppendAll(t: Table, relation: string, facts: seq<seq<i64>>): Table
    decreases |facts|
  {
    if |facts| == 0 then t
    else Append(AppendAll(t, relation, facts[..|facts| - 1]), relation, facts[|facts| - 1])
  }

  /** Facts added to a name that was never registered are dropped: the table stays as it is. */
  lemma {:induction false} AppendUnregistered(t: Table, relation: string, facts: seq<seq<i64>>)
    requires relation !in t
    ensures AppendAll(t, relation, facts) == t
    decreases |facts|
  {
    if |facts| > 0 {
      AppendUnregistered(t, relation, facts[..|facts| - 1]);
    }
  }

  class AscentProgram {
    var relations: Table

    /** `AscentProgram::new`: no relation registered. */
    constructor ()
      ensures relations == map[]
    {
      relations := map[];
    }

    /** `add_relation`. */
    method AddRelation(name: string)
      modifies this
      ensures relations == Register(old(relations), name)
    {
      relations := relations[name := []];
    }

    /** `add_fact`: appends to a registered relation, ignores an unregistered one. */
    method AddFact(relation: string, fact: seq<i64>)
      modifies this
      ensures relations == Append(old(relations), relation, fact)
    {
      if relation in relations {
        relations := relations[relation := relations[relation] + [fact]];
      }
    }

    /** `get_relation`: a copy of the list, `unwrap_or_default` for an unknown name. */
    method GetRelation(name: string) returns (facts: seq<seq<i64>>)
      ensures facts == Facts(relations, name)
    {
      if name in relations {
        facts := relations[name];
      } else {
        facts := [];
      }
    }
  }

  // ---------------------------------------------------------------------------
  // GraphProgram: path as the transitive closure of edge
  // ---------------------------------------------------------------------------

  type Edge = (i32, i32)

  /** `w` is a walk of at least one edge: each consecutive pair of nodes is an edge. */
  ghost predicate IsWalk(edges: seq<Edge>, w: seq<i32>) {
    |w| >= 2 && forall i | 0 <= i < |w| - 1 :: (w[i], w[i + 1]) in edges
  }

  /** `z` can be reached from `x` by following one or more edges. */
  ghost predicate Reaches(edges: seq<Edge>, x: i32, z: i32) {
    exists w :: IsWalk(edges, w) && w[0] == x && w[|w| - 1] == z
  }

  /**
   * `s` satisfies the two rules of the `ascent!` block:
   * `path(x, y) <-- edge(x, y)` and `path(x, z) <-- edge(x, y), path(y, z)`.
   */
  ghost predicate Closed(edges: seq<Edge>, s: set<Edge>) {
    && (forall e | e in edges :: e in s)
    && (forall e, p | e in edges && p in s && e.1 == p.0 :: (e.0, p.1) in s)
  }

  /** Every set closed under the rules holds every pair joined by a walk. */
  lemma {:induction false} ClosedHasWalks(edges: seq<Edge>, s: set<Edge>, w: seq<i32>)
    requires Closed(edges, s) && IsWalk(edges, w)
    ensures (w[0], w[|w| - 1]) in s
    decreases |w|
  {
    if |w| > 2 {
      var rest := w[1..];
      assert IsWalk(edges, rest) by {
        forall i | 0 <= i < |rest| - 1 ensures (rest[i], rest[i + 1]) in edges {
          assert (w[i + 1], w[i + 2]) in edges;
        }
      }
      ClosedHasWalks(edges, s, rest);
      assert (w[0], w[1]) in edges;
    } else {
      assert (w[0], w[1]) in edges;
    }
  }

  /** The pairs joined by a walk are closed under the rules: the closure is the least closed set. */
  lemma {:induction false} WalksClosed(edges: seq<Edge>, s: set<Edge>)
    requires forall x, z :: (x, z) in s <==> Reaches(edges, x, z)
    ensures Closed(edges, s)
    ensures forall s' | Closed(edges, s') :: s <= s'
  {
    forall e | e in edges ensures e in s {
      assert IsWalk(edges, [e.0, e.1]);
    }
    forall e, p | e in edges && p in s && e.1 == p.0 ensures (e.0, p.1) in s {
      var w := ExtendWalk(edges, e, p);
    }
    forall s' | Closed(edges, s') ensures s <= s' {
      forall p | p in s ensures p in s' {
        assert Reaches(edges, p.0, p.1);
        var w :| IsWalk(edges, w) && w[0] == p.0 && w[|w| - 1] == p.1;
        ClosedHasWalks(edges, s', w);
      }
    }
  }

  /** An edge followed by a walk is a walk. */
  lemma {:induction false} ExtendWalk(edges: seq<Edge>, e: Edge, p: Edge) returns (w': seq<i32>)
    requires e in edges && Reaches(edges, p.0, p.1) && e.1 == p.0
    ensures IsWalk(edges, w') && w'[0] == e.0 && w'[|w'| - 1] == p.1
  {
    var w :| IsWalk(edges, w) && w[0] == p.0 && w[|w| - 1] == p.1;
    w' := [e.0] + w;
    forall i | 0 <= i < |w'| - 1 ensures (w'[i], w'[i + 1]) in edges {
      if i > 0 {
        assert (w[i - 1], w[i]) in edges;
      }
    }
  }

  /** The endpoints of the edges. */
  function Nodes(edges: seq<Edge>): set<i32> {
    (set e | e in edges :: e.0) + (set e | e in edges :: e.1)
  }

  /** Every pair of nodes. */
  function Grid(nodes: set<i32>): set<Edge> {
    set x, y | x in nodes && y in nodes :: (x, y)
  }

  /** One application of the second rule to every edge and every pair of `s`. */
  function Compose(edges: seq<Edge>, s: set<Edge>): set<Edge> {
    set e, p | e in edges && p in s && e.1 == p.0 :: (e.0, p.1)
  }

  /** The invariant of the saturation loop: the edges are in, and every pair is joined by a walk. */
  ghost predicate Sound(edges: seq<Edge>, s: set<Edge>) {
    && (forall e | e in edges :: e in s)
    && (forall p | p in s :: Reaches(edges, p.0, p.1))
    && s <= Grid(Nodes(edges))
  }

  /** One saturation step keeps the invariant. */
  lemma {:induction false} ComposeSound(edges: seq<Edge>, s: set<Edge>)
    requires Sound(edges, s)
    ensures Sound(edges, s + Compose(edges, s))
  {
    var nodes := Nodes(edges);
    forall q | q in Compose(edges, s)
      ensures Reaches(edges, q.0, q.1) && q in Grid(nodes)
    {
      var e, p :| e in edges && p in s && e.1 == p.0 && q == (e.0, p.1);
      var w := ExtendWalk(edges, e, p);
      assert e.0 in nodes;
      assert p.1 in nodes;
    }
  }

  /** A set strictly between `s` and the grid leaves less of the grid uncovered. */
  lemma {:induction false} Progress(grid: set<Edge>, s: set<Edge>, next: set<Edge>)
    requires s <= next <= grid && next != s
    ensures |grid - next| < |grid - s|
  {
    assert !(next <= s);
    var x :| x in next && x !in s;
    var smaller, larger := grid - next, grid - s;
    assert larger == smaller + (larger - smaller);
    assert x in larger - smaller;
  }

  /**
   * The least fixpoint of the rules, computed by applying the second rule until
   * nothing new appears.
   */
  method Saturate(edges: seq<Edge>) returns (s: set<Edge>)
    ensures forall x, z :: (x, z) in s <==> Reaches(edges, x, z)
  {
    ghost var grid := Grid(Nodes(edges));
    s := set e | e in edges;
    forall e | e in edges ensures Reaches(edges, e.0, e.1) {
      assert IsWalk(edges, [e.0, e.1]);
    }
    while true
      invariant Sound(edges, s)
      decreases |grid - s|
    {
      var next := s + Compose(edges, s);
      if next == s {
        break;
      }
      ComposeSound(edges, s);
      Progress(grid, s, next);
      s := next;
    }
    forall x, z | Reaches(edges, x, z) ensures (x, z) in s {
      var w :| IsWalk(edges, w) && w[0] == x && w[|w| - 1] == z;
      ClosedHasWalks(edges, s, w);
    }
  }

  class GraphProgram {
    var edges: seq<Edge>
    var paths: seq<Edge>

    /** `GraphProgram::new`: no edges and no paths. */
    constructor ()
      ensures edges == [] && paths == []
    {
      edges := [];
      paths := [];
    }

    /** `add_edge`: appends one edge; the paths are not recomputed. */
    method AddEdge(from: i32, to: i32)
      modifies this
      ensures edges == old(edges) + [(from, to)]
      ensures paths == old(paths)
    {
      edges := edges + [(from, to)];
    }

    /**
     * `run`: `paths` is replaced by the derived `path` relation, each pair once, in
     * an unspecified order: exactly the pairs joined by a walk along the edges.
     */
    method Run()
      modifies this
      ensures edges == old(edges)
      ensures NoDups(paths)
      ensures forall x, z :: (x, z) in paths <==> Reaches(edges, x, z)
    {
      var derived := Saturate(edges);
      paths := ListSet(derived);
    }

    /** `get_paths`: a copy. */
    method GetPaths() returns (ps: seq<Edge>)
      ensures ps == paths
    {
      ps := paths;
    }

    /** `get_edges`: a copy. */
    method GetEdges() returns (es: seq<Edge>)
      ensures es == edges
    {
      es := edges;
    }
  }
}
