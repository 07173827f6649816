/**
 * The fact store of the prover (problem.py).
 *
 * `Store` is the abstract state of a `Problem`: the derivations recorded per predicate
 * (Python's `predicates` dict, whose insertion order is kept in `order`), and the two
 * validity caches.  `Add` specifies `_add_predicate`; the class `Problem` below
 * implements it imperatively and is proved against it.
 */
module Problems {
  import opened Wrappers
  import opened Relations
  import opened ProofOrder

  datatype Store = Store(
    derivations: map<Pred, seq<Deduction>>,
    order: seq<Pred>,
    possible: set<Pred>,
    impossible: set<Pred>)

  /** The state right after `__init__` has set its fields, before any initial predicate is added. */
  const EmptyStore: Store := Store(map[], [], {}, {})

  /**
   * What every reachable store satisfies: `order` lists each key exactly once, each key's
   * derivations are distinct and derive that key, and the caches agree with validity.
   */
  ghost predicate Inv(s: Store, geometry: Pred -> bool) {
    && NoDups(s.order)
    && (forall p :: p in s.derivations <==> p in s.order)
    && (forall p | p in s.derivations :: NoDups(s.derivations[p]))
    && (forall p, d | p in s.derivations && d in s.derivations[p] :: d.fact == p)
    && s.possible !! s.impossible
    && (forall p | p in s.possible :: IsValid(p, geometry))
    && (forall p | p in s.impossible :: !IsValid(p, geometry))
  }

  /** `if predicate not in self.predicates: self.predicates[predicate] = []`. */
  function EnsureKey(s: Store, p: Pred): Store {
    if p in s.derivations then s
    else s.(derivations := s.derivations[p := []], order := s.order + [p])
  }

  /** Store the derivation `d` under its predicate unless it is already recorded. */
  function Put(s: Store, d: Deduction): Store {
    var t := EnsureKey(s, d.fact);
    if d in t.derivations[d.fact] then t
    else t.(derivations := t.derivations[d.fact := t.derivations[d.fact] + [d]])
  }

  /** The sub-deduction loop, over the sub-facts in the order `visit` lists them. */
  function AddSubs(s: Store, visit: seq<Deduction>): Store
    decreases |visit|
  {
    if |visit| == 0 then s
    else
      var last := visit[|visit| - 1];
      Put(AddSubs(s, visit[..|visit| - 1]), Deduction(last.fact, last.parents, SubRule))
  }

  /** Whether `_add_predicate` gets past its validity checks for `p`. */
  predicate Accepts(s: Store, p: Pred, geometry: Pred -> bool) {
    p !in s.impossible && (p in s.possible || IsValid(p, geometry))
  }

  /**
   * `_add_predicate(p, parents, rule)`: the key is inserted first; a predicate found
   * impossible stops there; otherwise the derivation and every sub-fact are recorded.
   */
  function Add(s: Store, p: Pred, parents: set<Pred>, rule: string, geometry: Pred -> bool,
               visit: seq<Deduction>): Store
  {
    var s1 := EnsureKey(s, p);
    if !Accepts(s1, p, geometry) then s1.(impossible := s1.impossible + {p})
    else AddSubs(Put(s1.(possible := s1.possible + {p}), Deduction(p, parents, rule)), visit)
  }

  lemma {:induction false} AddAllSnoc(s: Store, ds: seq<Deduction>, visits: seq<seq<Deduction>>, d: Deduction,
                   v: seq<Deduction>, geometry: Pred -> bool)
    requires |visits| == |ds|
    ensures AddAll(s, ds + [d], visits + [v], geometry)
         == Add(AddAll(s, ds, visits, geometry), d.fact, d.parents, d.rule, geometry, v)
  {
    assert (ds + [d])[..|ds|] == ds;
    assert (visits + [v])[..|ds|] == visits;
  }

  /** Adding the derivations `ds` one after another, the i-th visiting its sub-facts in `visits[i]`. */
  function AddAll(s: Store, ds: seq<Deduction>, visits: seq<seq<Deduction>>, geometry: Pred -> bool): Store
    requires |visits| == |ds|
    decreases |ds|
  {
    if |ds| == 0 then s
    else
      var n := |ds| - 1;
      Add(AddAll(s, ds[..n], visits[..n], geometry), ds[n].fact, ds[n].parents, ds[n].rule, geometry, visits[n])
  }

  /** Each derivation of `ds` that is valid visited exactly its sub-facts. */
  ghost predicate Visited(ds: seq<Deduction>, visits: seq<seq<Deduction>>, geometry: Pred -> bool)
    decreases |ds|
  {
    && |visits| == |ds|
    && (|ds| > 0 ==>
          var n := |ds| - 1;
          && Visited(ds[..n], visits[..n], geometry)
          && (IsValid(ds[n].fact, geometry) ==> IsListing(visits[n], SubData(ds[n].fact))))
  }

  lemma {:induction false} VisitedSnoc(ds: seq<Deduction>, visits: seq<seq<Deduction>>, d: Deduction, v: seq<Deduction>,
                    geometry: Pred -> bool)
    requires Visited(ds, visits, geometry)
    requires IsValid(d.fact, geometry) ==> IsListing(v, SubData(d.fact))
    ensures Visited(ds + [d], visits + [v], geometry)
  {
    assert (ds + [d])[..|ds|] == ds;
    assert (visits + [v])[..|ds|] == visits;
  }

  /** `Visited` spelled out position by position. */
  lemma {:induction false} VisitedAt(ds: seq<Deduction>, visits: seq<seq<Deduction>>, geometry: Pred -> bool)
    requires Visited(ds, visits, geometry)
    ensures |visits| == |ds|
    ensures forall i | 0 <= i < |ds| && IsValid(ds[i].fact, geometry) :: IsListing(visits[i], SubData(ds[i].fact))
    decreases |ds|
  {
    if |ds| > 0 {
      var n := |ds| - 1;
      VisitedAt(ds[..n], visits[..n], geometry);
      forall i | 0 <= i < n && IsValid(ds[i].fact, geometry)
        ensures IsListing(visits[i], SubData(ds[i].fact))
      {
        assert ds[..n][i] == ds[i] && visits[..n][i] == visits[i];
      }
    }
  }

  /** `d` is recorded in `s`. */
  predicate Has(s: Store, d: Deduction) {
    d.fact in s.derivations && d in s.derivations[d.fact]
  }

  /** `t` keeps every key, every recorded derivation in its place, and the key order of `s`. */
  ghost predicate Extends(s: Store, t: Store) {
    && s.order <= t.order
    && (forall p | p in s.derivations :: p in t.derivations && s.derivations[p] <= t.derivations[p])
    && s.possible <= t.possible
    && s.impossible <= t.impossible
  }

  // ---------------------------------------------------------------------------
  // Lemmas about the store operations
  // ---------------------------------------------------------------------------

  /** `Put` extends the store, leaves the caches alone and records `d` and nothing else. */
  lemma {:induction false} PutFacts(s: Store, d: Deduction)
    ensures var t := Put(s, d);
      && Extends(s, t) && t.possible == s.possible && t.impossible == s.impossible
      && (forall e :: Has(t, e) <==> Has(s, e) || e == d)
  {
  }

  /** `Put` keeps the invariant. */
  lemma {:induction false} PutKeepsInv(s: Store, d: Deduction, geometry: Pred -> bool)
    requires Inv(s, geometry)
    ensures Inv(Put(s, d), geometry)
  {
    var t := EnsureKey(s, d.fact);
    assert Inv(t, geometry);
    var u := Put(s, d);
    if d !in t.derivations[d.fact] {
      assert u.derivations[d.fact] == t.derivations[d.fact] + [d];
      assert forall p | p in u.derivations :: NoDups(u.derivations[p]);
    }
  }

  lemma {:induction false} ExtendsTransitive(a: Store, b: Store, c: Store)
    requires Extends(a, b) && Extends(b, c)
    ensures Extends(a, c)
  {
  }

  lemma {:induction false} EnsureKeyAddsNothing(s: Store, p: Pred, e: Deduction)
    requires Has(EnsureKey(s, p), e)
    ensures Has(s, e)
  {
  }

  /** The sub-fact derivations `visit` names, as the store records them. */
  function Relabelled(visit: seq<Deduction>): set<Deduction> {
    set d | d in visit :: Deduction(d.fact, d.parents, SubRule)
  }

  lemma {:induction false} AddSubsSnoc(s: Store, visit: seq<Deduction>, sub: Deduction)
    ensures AddSubs(s, visit + [sub]) == Put(AddSubs(s, visit), Deduction(sub.fact, sub.parents, SubRule))
  {
    assert (visit + [sub])[..|visit|] == visit;
  }

  /** The sub-deduction loop keeps the invariant. */
  lemma {:induction false} AddSubsKeepsInv(s: Store, visit: seq<Deduction>, geometry: Pred -> bool)
    requires Inv(s, geometry)
    ensures Inv(AddSubs(s, visit), geometry)
    decreases |visit|
  {
    if |visit| > 0 {
      var n := |visit| - 1;
      AddSubsKeepsInv(s, visit[..n], geometry);
      PutKeepsInv(AddSubs(s, visit[..n]), Deduction(visit[n].fact, visit[n].parents, SubRule), geometry);
    }
  }

  /**
   * The sub-deduction loop extends the store, leaves the caches alone, and records each
   * listed sub-fact and nothing else.
   */
  lemma {:induction false} AddSubsFacts(s: Store, visit: seq<Deduction>)
    ensures var t := AddSubs(s, visit);
      && Extends(s, t) && t.possible == s.possible && t.impossible == s.impossible
      && (forall e :: Has(t, e) <==> Has(s, e) || e in Relabelled(visit))
    decreases |visit|
  {
    if |visit| > 0 {
      var n := |visit| - 1;
      var last := Deduction(visit[n].fact, visit[n].parents, SubRule);
      var mid := AddSubs(s, visit[..n]);
      var t := AddSubs(s, visit);
      assert t == Put(mid, last);
      AddSubsFacts(s, visit[..n]);
      PutFacts(mid, last);
      ExtendsTransitive(s, mid, t);
      RelabelledSnoc(visit);
      forall e ensures Has(t, e) <==> Has(s, e) || e in Relabelled(visit) {
        assert Has(t, e) <==> Has(mid, e) || e == last;
      }
    }
  }

  lemma {:induction false} RelabelledSnoc(visit: seq<Deduction>)
    requires |visit| > 0
    ensures var n := |visit| - 1;
      Relabelled(visit) == Relabelled(visit[..n]) + {Deduction(visit[n].fact, visit[n].parents, SubRule)}
  {
    var n := |visit| - 1;
    assert visit == visit[..n] + [visit[n]];
  }

  /** Under the invariant the caches are transparent: `p` is accepted exactly when it is valid. */
  lemma {:induction false} CacheTransparent(s: Store, p: Pred, geometry: Pred -> bool)
    requires Inv(s, geometry)
    ensures Accepts(s, p, geometry) <==> IsValid(p, geometry)
    ensures Accepts(EnsureKey(s, p), p, geometry) <==> IsValid(p, geometry)
  {
  }

  /** Every sub-fact already carries the rule name the store gives it. */
  lemma {:induction false} SubDataRelabel(p: Pred)
    ensures forall d | d in SubData(p) :: Deduction(d.fact, d.parents, SubRule) == d
  {
    SubDataSound(p);
  }

  /** `_add_predicate` keeps the invariant and every earlier entry; the key `p` is present afterwards. */
  lemma {:induction false} AddKeepsInv(s: Store, p: Pred, parents: set<Pred>, rule: string, geometry: Pred -> bool,
                    visit: seq<Deduction>)
    requires Inv(s, geometry)
    ensures var t := Add(s, p, parents, rule, geometry, visit);
      Inv(t, geometry) && Extends(s, t) && p in t.derivations
  {
    var s1 := EnsureKey(s, p);
    assert Inv(s1, geometry);
    CacheTransparent(s, p, geometry);
    if IsValid(p, geometry) {
      var s2 := s1.(possible := s1.possible + {p});
      var d := Deduction(p, parents, rule);
      assert Inv(s2, geometry) && Extends(s, s2);
      PutKeepsInv(s2, d, geometry);
      PutFacts(s2, d);
      var s3 := Put(s2, d);
      AddSubsKeepsInv(s3, visit, geometry);
      AddSubsFacts(s3, visit);
      ExtendsTransitive(s, s2, s3);
      ExtendsTransitive(s, s3, AddSubs(s3, visit));
    }
  }

  /** Adding a whole sequence of derivations keeps the invariant and every earlier entry. */
  lemma {:induction false} AddAllKeepsInv(s: Store, ds: seq<Deduction>, visits: seq<seq<Deduction>>,
                                          geometry: Pred -> bool)
    requires Inv(s, geometry) && |visits| == |ds|
    ensures Inv(AddAll(s, ds, visits, geometry), geometry) && Extends(s, AddAll(s, ds, visits, geometry))
    decreases |ds|
  {
    if |ds| > 0 {
      var n := |ds| - 1;
      var t := AddAll(s, ds[..n], visits[..n], geometry);
      AddAllKeepsInv(s, ds[..n], visits[..n], geometry);
      AddKeepsInv(t, ds[n].fact, ds[n].parents, ds[n].rule, geometry, visits[n]);
      ExtendsTransitive(s, t, AddAll(s, ds, visits, geometry));
    }
  }

  /** Every valid derivation of `ds` is recorded once they have all been added. */
  lemma {:induction false} AddAllRecords(s: Store, ds: seq<Deduction>, visits: seq<seq<Deduction>>,
                                         geometry: Pred -> bool)
    requires Inv(s, geometry) && Visited(ds, visits, geometry)
    ensures forall i | 0 <= i < |ds| && IsValid(ds[i].fact, geometry) :: Has(AddAll(s, ds, visits, geometry), ds[i])
    decreases |ds|
  {
    if |ds| > 0 {
      var n := |ds| - 1;
      var t := AddAll(s, ds[..n], visits[..n], geometry);
      var u := AddAll(s, ds, visits, geometry);
      AddAllRecords(s, ds[..n], visits[..n], geometry);
      AddAllKeepsInv(s, ds[..n], visits[..n], geometry);
      AddKeepsInv(t, ds[n].fact, ds[n].parents, ds[n].rule, geometry, visits[n]);
      assert Extends(t, u);
      forall i | 0 <= i < |ds| && IsValid(ds[i].fact, geometry)
        ensures Has(u, ds[i])
      {
        if i == n {
          AddAccepted(t, ds[n].fact, ds[n].parents, ds[n].rule, geometry, visits[n]);
        } else {
          assert ds[..n][i] == ds[i];
          var q := ds[i].fact;
          assert t.derivations[q] <= u.derivations[q];
          assert ds[i] in t.derivations[q];
        }
      }
    }
  }

  /**
   * An invalid predicate is marked impossible and gains no derivation: a key this call
   * inserts stays with an empty list.
   */
  lemma {:induction false} AddRejected(s: Store, p: Pred, parents: set<Pred>, rule: string, geometry: Pred -> bool,
                    visit: seq<Deduction>)
    requires Inv(s, geometry) && !IsValid(p, geometry)
    ensures var t := Add(s, p, parents, rule, geometry, visit);
      && t.derivations == EnsureKey(s, p).derivations && t.order == EnsureKey(s, p).order
      && t.impossible == s.impossible + {p} && t.possible == s.possible
      && (p !in s.derivations ==> t.derivations[p] == [])
  {
    CacheTransparent(s, p, geometry);
  }

  /**
   * A valid predicate is marked possible; its derivation and the derivation of every
   * sub-fact are recorded, and nothing else is.
   */
  lemma {:induction false} AddAccepted(s: Store, p: Pred, parents: set<Pred>, rule: string, geometry: Pred -> bool,
                    visit: seq<Deduction>)
    requires Inv(s, geometry) && IsValid(p, geometry) && IsListing(visit, SubData(p))
    ensures var t := Add(s, p, parents, rule, geometry, visit);
      && t.possible == s.possible + {p} && t.impossible == s.impossible
      && Has(t, Deduction(p, parents, rule))
      && (forall d | d in SubData(p) :: Has(t, d))
      && (forall e | Has(t, e) :: Has(s, e) || e == Deduction(p, parents, rule) || e in SubData(p))
  {
    CacheTransparent(s, p, geometry);
    var s2 := EnsureKey(s, p).(possible := EnsureKey(s, p).possible + {p});
    var d := Deduction(p, parents, rule);
    PutFacts(s2, d);
    var s3 := Put(s2, d);
    AddSubsFacts(s3, visit);
    var t := AddSubs(s3, visit);
    SubDataRelabel(p);
    assert Relabelled(visit) == SubData(p);
    forall e | Has(t, e) ensures Has(s, e) || e == d || e in SubData(p) {
      if Has(s3, e) && e != d {
        assert Has(s2, e);
        EnsureKeyAddsNothing(s, p, e);
      }
    }
  }

  // ---------------------------------------------------------------------------
  // Candidate enumeration of `search_ar` (itertools order)
  // ---------------------------------------------------------------------------

  /** `itertools.combinations(pts, 2)`: the pairs (pts[i], pts[j]) with i < j, in index order. */
  function Pairs(pts: seq<Point>): seq<(Point, Point)>
    decreases |pts|
  {
    if |pts| == 0 then []
    else seq(|pts| - 1, j requires 0 <= j < |pts| - 1 => (pts[0], pts[j + 1])) + Pairs(pts[1..])
  }

  /** `itertools.product(xs, repeat=2)`: every ordered pair, the first component varying slowest. */
  function Product<T>(xs: seq<T>): seq<(T, T)> {
    ProductFrom(xs, xs)
  }

  function ProductFrom<T>(firsts: seq<T>, xs: seq<T>): seq<(T, T)>
    decreases |firsts|
  {
    if |firsts| == 0 then []
    else seq(|xs|, j requires 0 <= j < |xs| => (firsts[0], xs[j])) + ProductFrom(firsts[1..], xs)
  }

  /** `itertools.permutations(pts, 3)`: (pts[i], pts[j], pts[k]) for distinct i, j, k, in index order. */
  function Perms3(pts: seq<Point>): seq<Triple> {
    PermsFrom(pts, 0)
  }

  function PermsFrom(pts: seq<Point>, i: nat): seq<Triple>
    decreases |pts| - i
  {
    if i >= |pts| then [] else PermsSecond(pts, i, 0) + PermsFrom(pts, i + 1)
  }

  function PermsSecond(pts: seq<Point>, i: nat, j: nat): seq<Triple>
    requires i < |pts|
    decreases |pts| - j
  {
    if j >= |pts| then []
    else (if j == i then [] else PermsThird(pts, i, j, 0)) + PermsSecond(pts, i, j + 1)
  }

  function PermsThird(pts: seq<Point>, i: nat, j: nat, k: nat): seq<Triple>
    requires i < |pts| && j < |pts|
    decreases |pts| - k
  {
    if k >= |pts| then []
    else (if k == i || k == j then [] else [(pts[i], pts[j], pts[k])]) + PermsThird(pts, i, j, k + 1)
  }

  /** Every pair of positions i < j is generated. */
  lemma {:induction false} PairsComplete(pts: seq<Point>)
    ensures forall i, j | 0 <= i < j < |pts| :: (pts[i], pts[j]) in Pairs(pts)
    decreases |pts|
  {
    if |pts| > 0 {
      var rest := Pairs(pts[1..]);
      var head := seq(|pts| - 1, j requires 0 <= j < |pts| - 1 => (pts[0], pts[j + 1]));
      assert Pairs(pts) == head + rest;
      PairsComplete(pts[1..]);
      forall i, j | 0 <= i < j < |pts| ensures (pts[i], pts[j]) in Pairs(pts) {
        if i == 0 {
          assert head[j - 1] == (pts[0], pts[j]);
        } else {
          assert pts[i] == pts[1..][i - 1] && pts[j] == pts[1..][j - 1];
          assert (pts[i], pts[j]) in rest;
        }
      }
    }
  }

  /** Every pair of a first element and an element of `xs` is generated. */
  lemma {:induction false} ProductComplete<T>(firsts: seq<T>, xs: seq<T>)
    ensures forall x, y | x in firsts && y in xs :: (x, y) in ProductFrom(firsts, xs)
    decreases |firsts|
  {
    if |firsts| > 0 {
      var row := seq(|xs|, j requires 0 <= j < |xs| => (firsts[0], xs[j]));
      assert ProductFrom(firsts, xs) == row + ProductFrom(firsts[1..], xs);
      ProductComplete(firsts[1..], xs);
      forall x, y | x in firsts && y in xs ensures (x, y) in ProductFrom(firsts, xs) {
        var j :| 0 <= j < |xs| && xs[j] == y;
        if x == firsts[0] {
          assert row[j] == (x, y);
        } else {
          assert x in firsts[1..];
        }
      }
    }
  }

  lemma {:induction false} PermsThirdComplete(pts: seq<Point>, i: nat, j: nat, k: nat, k': nat)
    requires i < |pts| && j < |pts| && k <= k' < |pts| && i != k' && j != k'
    ensures (pts[i], pts[j], pts[k']) in PermsThird(pts, i, j, k)
    decreases |pts| - k
  {
    if k < k' {
      PermsThirdComplete(pts, i, j, k + 1, k');
    }
  }

  lemma {:induction false} PermsSecondComplete(pts: seq<Point>, i: nat, j: nat, j': nat, k: nat)
    requires i < |pts| && j <= j' < |pts| && k < |pts| && i != j' && j' != k && i != k
    ensures (pts[i], pts[j'], pts[k]) in PermsSecond(pts, i, j)
    decreases |pts| - j
  {
    if j < j' {
      PermsSecondComplete(pts, i, j + 1, j', k);
    } else {
      PermsThirdComplete(pts, i, j, 0, k);
    }
  }

  /** An element of either part is an element of a concatenation. */
  lemma InConcat<T>(x: T, a: seq<T>, b: seq<T>)
    requires x in a || x in b
    ensures x in a + b
  {
  }

  /** Every triple of pairwise different positions is generated. */
  lemma {:induction false} PermsComplete(pts: seq<Point>, i: nat, i': nat, j: nat, k: nat)
    requires i <= i' < |pts| && j < |pts| && k < |pts| && i' != j && j != k && i' != k
    ensures (pts[i'], pts[j], pts[k]) in PermsFrom(pts, i)
    decreases |pts| - i
  {
    var t := (pts[i'], pts[j], pts[k]);
    var here, later := PermsSecond(pts, i, 0), PermsFrom(pts, i + 1);
    if i < i' {
      PermsComplete(pts, i + 1, i', j, k);
    } else {
      PermsSecondComplete(pts, i, 0, j, k);
    }
    InConcat(t, here, later);
    assert PermsFrom(pts, i) == here + later;
  }

  /** One scan of `search_ar`: the predicate built from each generated argument tuple, in order. */
  function Scan<T>(xs: seq<T>, make: T -> Pred): (r: seq<Pred>)
    ensures |r| == |xs| && forall i | 0 <= i < |xs| :: r[i] == make(xs[i])
  {
    seq(|xs|, i requires 0 <= i < |xs| => make(xs[i]))
  }

  function CongOf(s: ((Point, Point), (Point, Point))): Pred {
    MakeCong(s.0.0, s.0.1, s.1.0, s.1.1)
  }

  function ParaOf(s: ((Point, Point), (Point, Point))): Pred {
    MakePara(s.0.0, s.0.1, s.1.0, s.1.1)
  }

  function PerpOf(s: ((Point, Point), (Point, Point))): Pred {
    MakePerp(s.0.0, s.0.1, s.1.0, s.1.1)
  }

  function EqangleOf(t: (Triple, Triple)): Pred {
    MakeEqangle(t.0.0, t.0.1, t.0.2, t.1.0, t.1.1, t.1.2)
  }

  /** The four scans of `search_ar`, in order: Cong, Para, Perp over segment pairs, then Eqangle. */
  function Candidates(pts: seq<Point>): seq<Pred> {
    var segs := Product(Pairs(pts));
    var angles := Product(Perms3(pts));
    Scan(segs, CongOf) + Scan(segs, ParaOf) + Scan(segs, PerpOf) + Scan(angles, EqangleOf)
  }

  /**
   * The search is exhaustive: for any two segments between distinct points of the
   * problem, the Cong, Para and Perp over them are scanned ...
   */
  lemma {:induction false} CandidatesCoverSegments(pts: seq<Point>, a: Point, b: Point, c: Point, d: Point)
    requires a in pts && b in pts && c in pts && d in pts && a != b && c != d
    ensures MakeCong(a, b, c, d) in Candidates(pts)
    ensures MakePara(a, b, c, d) in Candidates(pts)
    ensures MakePerp(a, b, c, d) in Candidates(pts)
  {
    var segs := Product(Pairs(pts));
    var angles := Product(Perms3(pts));
    var x := OrderedPair(pts, a, b);
    var y := OrderedPair(pts, c, d);
    ProductComplete(Pairs(pts), Pairs(pts));
    assert (x, y) in segs;
    var i :| 0 <= i < |segs| && segs[i] == (x, y);
    assert Line(x.0, x.1) == Line(a, b) && Line(y.0, y.1) == Line(c, d);
    var congs, paras, perps := Scan(segs, CongOf), Scan(segs, ParaOf), Scan(segs, PerpOf);
    assert congs[i] == MakeCong(a, b, c, d);
    assert paras[i] == MakePara(a, b, c, d);
    assert perps[i] == MakePerp(a, b, c, d);
    assert Candidates(pts) == congs + paras + perps + Scan(angles, EqangleOf);
  }

  /** ... and so is the Eqangle of any two angles formed by three distinct points each. */
  lemma {:induction false} CandidatesCoverAngles(pts: seq<Point>, a: Point, b: Point, c: Point, d: Point, e: Point, f: Point)
    requires a in pts && b in pts && c in pts && d in pts && e in pts && f in pts
    requires a != b && b != c && a != c && d != e && e != f && d != f
    ensures MakeEqangle(a, b, c, d, e, f) in Candidates(pts)
  {
    var segs := Product(Pairs(pts));
    var angles := Product(Perms3(pts));
    var t0 := OrderedTriple(pts, a, b, c);
    var t1 := OrderedTriple(pts, d, e, f);
    ProductComplete(Perms3(pts), Perms3(pts));
    assert (t0, t1) in angles;
    var i :| 0 <= i < |angles| && angles[i] == (t0, t1);
    var eqangles := Scan(angles, EqangleOf);
    assert eqangles[i] == MakeEqangle(a, b, c, d, e, f);
    assert Candidates(pts) == Scan(segs, CongOf) + Scan(segs, ParaOf) + Scan(segs, PerpOf) + eqangles;
  }

  /** Two distinct listed points occur, in one order or the other, among the combinations. */
  lemma {:induction false} OrderedPair(pts: seq<Point>, a: Point, b: Point) returns (x: (Point, Point))
    requires a in pts && b in pts && a != b
    ensures x in Pairs(pts) && ((x.0, x.1) == (a, b) || (x.0, x.1) == (b, a))
  {
    var i :| 0 <= i < |pts| && pts[i] == a;
    var j :| 0 <= j < |pts| && pts[j] == b;
    var ps := Pairs(pts);
    PairsComplete(pts);
    if i < j {
      assert (pts[i], pts[j]) in ps;
      x := (a, b);
    } else {
      assert (pts[j], pts[i]) in ps;
      x := (b, a);
    }
  }

  /** Three distinct listed points occur, in this order, among the permutations. */
  lemma {:induction false} OrderedTriple(pts: seq<Point>, a: Point, b: Point, c: Point) returns (t: Triple)
    requires a in pts && b in pts && c in pts && a != b && b != c && a != c
    ensures t in Perms3(pts) && t == (a, b, c)
  {
    var i :| 0 <= i < |pts| && pts[i] == a;
    var j :| 0 <= j < |pts| && pts[j] == b;
    var k :| 0 <= k < |pts| && pts[k] == c;
    t := (a, b, c);
    PermsComplete(pts, 0, i, j, k);
  }

  /**
   * What `search_ar` queues: for each candidate in order that is geometrically valid
   * and not yet a key, the derivations the algebraic reasoner proposes for it.
   */
  function Queue(cands: seq<Pred>, keys: set<Pred>, geometry: Pred -> bool,
                 ar: Pred -> seq<Deduction>): seq<Deduction>
    decreases |cands|
  {
    if |cands| == 0 then []
    else
      var n := |cands| - 1;
      Queue(cands[..n], keys, geometry, ar)
      + (if IsValid(cands[n], geometry) && cands[n] !in keys then ar(cands[n]) else [])
  }

  /** The candidates among `cands` whose validity is `valid`: what a scan adds to one cache. */
  function Sift(cands: seq<Pred>, geometry: Pred -> bool, valid: bool): set<Pred>
    decreases |cands|
  {
    if |cands| == 0 then {}
    else
      var n := |cands| - 1;
      Sift(cands[..n], geometry, valid) + (if IsValid(cands[n], geometry) == valid then {cands[n]} else {})
  }

  /** A scan caches exactly the scanned candidates, each under its own validity. */
  lemma {:induction false} SiftMembers(cands: seq<Pred>, geometry: Pred -> bool, valid: bool)
    ensures forall x :: x in Sift(cands, geometry, valid) <==> x in cands && IsValid(x, geometry) == valid
    decreases |cands|
  {
    if |cands| > 0 {
      var n := |cands| - 1;
      SiftMembers(cands[..n], geometry, valid);
      assert cands == cands[..n] + [cands[n]];
    }
  }

  /** The three parts of a problem that a scan of candidates changes. */
  datatype Caches = Caches(buffer: seq<Deduction>, possible: set<Pred>, impossible: set<Pred>)

  /**
   * One candidate of `search_ar`: its validity is cached and, when it is valid and not
   * yet a key, the reasoner's proposals for it are queued.
   */
  function SweepStep(k: Caches, c: Pred, keys: set<Pred>, geometry: Pred -> bool,
                     ar: Pred -> seq<Deduction>): Caches
  {
    if IsValid(c, geometry) then
      Caches(k.buffer + (if c !in keys then ar(c) else []), k.possible + {c}, k.impossible)
    else
      Caches(k.buffer, k.possible, k.impossible + {c})
  }

  /** The candidates handled one after the other. */
  function Sweep(k: Caches, cands: seq<Pred>, keys: set<Pred>, geometry: Pred -> bool,
                 ar: Pred -> seq<Deduction>): Caches
    decreases |cands|
  {
    if |cands| == 0 then k
    else
      var n := |cands| - 1;
      SweepStep(Sweep(k, cands[..n], keys, geometry, ar), cands[n], keys, geometry, ar)
  }

  /** A sweep queues `Queue`: the proposals for the valid candidates not yet known, in order. */
  lemma {:induction false} SweepBuffer(k: Caches, cands: seq<Pred>, keys: set<Pred>,
                                       geometry: Pred -> bool, ar: Pred -> seq<Deduction>)
    ensures Sweep(k, cands, keys, geometry, ar).buffer == k.buffer + Queue(cands, keys, geometry, ar)
    decreases |cands|
  {
    if |cands| > 0 {
      var n := |cands| - 1;
      var c := cands[n];
      var prev := Sweep(k, cands[..n], keys, geometry, ar);
      SweepBuffer(k, cands[..n], keys, geometry, ar);
      var q := Queue(cands[..n], keys, geometry, ar);
      var e := if IsValid(c, geometry) && c !in keys then ar(c) else [];
      assert Sweep(k, cands, keys, geometry, ar).buffer == prev.buffer + e;
      assert Queue(cands, keys, geometry, ar) == q + e;
      AppendAssoc(k.buffer, q, e);
    }
  }

  /** A sweep sorts every candidate into the cache of its validity. */
  lemma {:induction false} SweepCaches(k: Caches, cands: seq<Pred>, keys: set<Pred>,
                                       geometry: Pred -> bool, ar: Pred -> seq<Deduction>)
    ensures Sweep(k, cands, keys, geometry, ar).possible == k.possible + Sift(cands, geometry, true)
    ensures Sweep(k, cands, keys, geometry, ar).impossible == k.impossible + Sift(cands, geometry, false)
  {
    SweepPossible(k, cands, keys, geometry, ar);
    SweepImpossible(k, cands, keys, geometry, ar);
  }

  lemma {:induction false} SweepPossible(k: Caches, cands: seq<Pred>, keys: set<Pred>,
                                         geometry: Pred -> bool, ar: Pred -> seq<Deduction>)
    ensures Sweep(k, cands, keys, geometry, ar).possible == k.possible + Sift(cands, geometry, true)
    decreases |cands|
  {
    if |cands| > 0 {
      var n := |cands| - 1;
      var c := cands[n];
      SweepPossible(k, cands[..n], keys, geometry, ar);
      var v := IsValid(c, geometry);
      assert Sweep(k, cands, keys, geometry, ar).possible
          == Sweep(k, cands[..n], keys, geometry, ar).possible + (if v then {c} else {});
    }
  }

  lemma {:induction false} SweepImpossible(k: Caches, cands: seq<Pred>, keys: set<Pred>,
                                           geometry: Pred -> bool, ar: Pred -> seq<Deduction>)
    ensures Sweep(k, cands, keys, geometry, ar).impossible == k.impossible + Sift(cands, geometry, false)
    decreases |cands|
  {
    if |cands| > 0 {
      var n := |cands| - 1;
      var c := cands[n];
      SweepImpossible(k, cands[..n], keys, geometry, ar);
      var v := IsValid(c, geometry);
      assert Sweep(k, cands, keys, geometry, ar).impossible
          == Sweep(k, cands[..n], keys, geometry, ar).impossible + (if v then {} else {c});
    }
  }

  lemma {:induction false} AppendAssoc<T>(a: seq<T>, b: seq<T>, c: seq<T>)
    ensures a + b + c == a + (b + c)
  {
  }

  /** Every queued derivation was proposed for a valid candidate that was not yet known. */
  lemma {:induction false} QueueSound(cands: seq<Pred>, keys: set<Pred>, geometry: Pred -> bool,
                                      ar: Pred -> seq<Deduction>)
    ensures forall d | d in Queue(cands, keys, geometry, ar) ::
      exists c | c in cands :: IsValid(c, geometry) && c !in keys && d in ar(c)
    decreases |cands|
  {
    if |cands| > 0 {
      var n := |cands| - 1;
      QueueSound(cands[..n], keys, geometry, ar);
      forall d | d in Queue(cands, keys, geometry, ar)
        ensures exists c | c in cands :: IsValid(c, geometry) && c !in keys && d in ar(c)
      {
        if d in Queue(cands[..n], keys, geometry, ar) {
          var c :| c in cands[..n] && IsValid(c, geometry) && c !in keys && d in ar(c);
          assert c in cands;
        } else {
          assert cands[n] in cands;
        }
      }
    }
  }

  /** Every predicate of `ps` is valid. */
  predicate AllValid(ps: seq<Pred>, geometry: Pred -> bool)
    decreases |ps|
  {
    |ps| > 0 ==> AllValid(ps[..|ps| - 1], geometry) && IsValid(ps[|ps| - 1], geometry)
  }

  lemma {:induction false} AllValidMeans(ps: seq<Pred>, geometry: Pred -> bool)
    ensures AllValid(ps, geometry) <==> forall p | p in ps :: IsValid(p, geometry)
    decreases |ps|
  {
    if |ps| > 0 {
      var n := |ps| - 1;
      AllValidMeans(ps[..n], geometry);
      assert ps == ps[..n] + [ps[n]];
      if forall p | p in ps :: IsValid(p, geometry) {
        assert forall p | p in ps[..n] :: p in ps;
      }
    }
  }

  /** The sequence of initial predicates, each derived as an axiom from no parents. */
  function Axioms(ps: seq<Pred>): (r: seq<Deduction>)
    ensures |r| == |ps| && forall i | 0 <= i < |ps| :: r[i] == Deduction(ps[i], {}, "axiom")
  {
    seq(|ps|, i requires 0 <= i < |ps| => Deduction(ps[i], {}, "axiom"))
  }

  lemma {:induction false} AxiomsSnoc(ps: seq<Pred>, i: nat)
    requires i < |ps|
    ensures Axioms(ps[..i + 1]) == Axioms(ps[..i]) + [Deduction(ps[i], {}, "axiom")]
  {
    var l, r := Axioms(ps[..i + 1]), Axioms(ps[..i]) + [Deduction(ps[i], {}, "axiom")];
    assert |l| == |r|;
    forall j | 0 <= j < |l| ensures l[j] == r[j] {
      if j < i {
        assert ps[..i + 1][j] == ps[..i][j];
      }
    }
  }

  // ---------------------------------------------------------------------------
  // The Problem object
  // ---------------------------------------------------------------------------

  /**
   * The inner loop of `find_reachable_predicates`: the parents of every derivation in
   * `ds` that are not yet reachable join the worklist.
   */
  method PushParents(ds: seq<Deduction>, reach: set<Pred>, todo: set<Pred>) returns (todo': set<Pred>)
    ensures forall q :: q in todo' <==> q in todo || (q !in reach && exists d | d in ds :: q in d.parents)
  {
    todo' := todo;
    for j := 0 to |ds|
      invariant forall q :: q in todo' <==> q in todo || (q !in reach && exists d | d in ds[..j] :: q in d.parents)
    {
      assert forall d | d in ds[..j + 1] :: d in ds[..j] || d == ds[j];
      assert forall d | d in ds[..j] :: d in ds[..j + 1];
      todo' := todo' + (ds[j].parents - reach);
    }
    assert ds[..|ds|] == ds;
  }

  /** The invariant of the worklist loop of `find_reachable_predicates`. */
  ghost predicate Worklist(derivations: map<Pred, seq<Deduction>>, goals: set<Pred>, universe: set<Pred>,
                           reach: set<Pred>, todo: set<Pred>)
  {
    && reach <= universe && todo <= universe
    && goals <= reach + todo
    && (forall p, d | p in reach && p in derivations && d in derivations[p] :: d.parents <= reach + todo)
    && (forall s: set<Pred> | goals <= s && Closed(s, derivations) :: reach <= s && todo <= s)
  }

  /** Visiting a predicate not yet reachable keeps the invariant and shrinks what is left. */
  lemma {:induction false} WorklistStep(derivations: map<Pred, seq<Deduction>>, goals: set<Pred>, universe: set<Pred>,
                     reach: set<Pred>, todo: set<Pred>, current: Pred, todo': set<Pred>)
    requires universe == goals + Mentioned(derivations)
    requires Worklist(derivations, goals, universe, reach, todo + {current}) && current !in reach
    requires current in derivations ==> forall q :: q in todo' <==>
      q in todo || (q !in reach + {current} && exists d | d in derivations[current] :: q in d.parents)
    requires current !in derivations ==> todo' == todo
    ensures Worklist(derivations, goals, universe, reach + {current}, todo')
    ensures |universe - (reach + {current})| < |universe - reach|
  {
    assert universe - (reach + {current}) < universe - reach;
    if current in derivations {
      forall q | q in todo' ensures q in universe {
        if q !in todo {
          var d :| d in derivations[current] && q in d.parents;
        }
      }
    }
  }

  /**
   * The parent references of one printed line: the numbers of the parents, in one
   * iteration order of the parent set.
   */
  method ParentRefs(parents: set<Pred>, numbering: map<Pred, nat>) returns (refs: seq<nat>, ghost ps: seq<Pred>)
    requires parents <= numbering.Keys
    ensures IsListing(ps, parents) && |refs| == |ps|
    ensures forall k | 0 <= k < |ps| :: refs[k] == numbering[ps[k]]
  {
    refs, ps := [], [];
    var todo := parents;
    while todo != {}
      invariant todo <= parents && |refs| == |ps|
      invariant NoDups(ps)
      invariant forall q | q in ps :: q in parents && q !in todo
      invariant forall q | q in parents :: q in ps || q in todo
      invariant forall k | 0 <= k < |ps| :: ps[k] in numbering && refs[k] == numbering[ps[k]]
      decreases |todo|
    {
      var q :| q in todo;
      refs, ps := refs + [numbering[q]], ps + [q];
      todo := todo - {q};
    }
  }

  /** `numbering[predicate] = i + 1` over the placement. */
  method Numbering(placed: seq<(Pred, Deduction)>) returns (numbering: map<Pred, nat>)
    requires forall i, j | 0 <= i < j < |placed| :: placed[i].0 != placed[j].0
    ensures forall j | 0 <= j < |placed| :: placed[j].0 in numbering && numbering[placed[j].0] == j + 1
  {
    numbering := map[];
    for i := 0 to |placed|
      invariant forall k | 0 <= k < i :: placed[k].0 in numbering && numbering[placed[k].0] == k + 1
    {
      numbering := numbering[placed[i].0 := i + 1];
    }
  }

  class Problem {
    /** `predicates`: the recorded derivations of each predicate. */
    var derivations: map<Pred, seq<Deduction>>
    /** The insertion order of the keys of `predicates`. */
    var order: seq<Pred>
    const goals: set<Pred>
    const points: set<Point>
    /** `deductions_buffer`. */
    var buffer: seq<Deduction>
    /** `possible_relations`. */
    var possible: set<Pred>
    /** `impossible_relations`. */
    var impossible: set<Pred>
    /** The floating-point comparisons behind `is_valid`. */
    const geometry: Pred -> bool

    ghost function Facts(): Store
      reads this
    {
      Store(derivations, order, possible, impossible)
    }

    ghost predicate Valid()
      reads this
    {
      Inv(Facts(), geometry)
    }

    /** The field initialisations of `__init__`; the initial predicates are added by Seed. */
    constructor (goals: set<Pred>, points: set<Point>, geometry: Pred -> bool)
      ensures Valid() && Facts() == EmptyStore && buffer == []
      ensures this.goals == goals && this.points == points && this.geometry == geometry
    {
      derivations := map[];
      order := [];
      this.goals := goals;
      this.points := points;
      buffer := [];
      possible := {};
      impossible := {};
      this.geometry := geometry;
    }

    /**
     * `_add_predicate`.  The sub-facts are visited in an unspecified order, which the
     * ghost result `visit` records.  The messages it prints are not modelled.
     */
    method AddPredicate(p: Pred, parents: set<Pred>, rule: string) returns (ghost visit: seq<Deduction>)
      requires Valid()
      modifies this
      ensures Valid()
      ensures Facts() == Add(old(Facts()), p, parents, rule, geometry, visit)
      ensures IsValid(p, geometry) ==> IsListing(visit, SubData(p))
      ensures buffer == old(buffer)
    {
      ghost var s0 := Facts();
      visit := [];
      if p !in derivations {
        derivations := derivations[p := []];
        order := order + [p];
      }
      ghost var s1 := EnsureKey(s0, p);
      assert Facts() == s1;
      CacheTransparent(s0, p, geometry);
      if p in impossible {
        assert impossible + {p} == impossible;
        AddKeepsInv(s0, p, parents, rule, geometry, visit);
        return;
      }
      if p !in possible {
        if IsValid(p, geometry) {
          possible := possible + {p};
        } else {
          impossible := impossible + {p};
          AddKeepsInv(s0, p, parents, rule, geometry, visit);
          return;
        }
      }
      ghost var s2 := s1.(possible := s1.possible + {p});
      assert Facts() == s2;
      var d := Deduction(p, parents, rule);
      if d !in derivations[p] {
        derivations := derivations[p := derivations[p] + [d]];
      }
      ghost var s3 := Put(s2, d);
      assert Facts() == s3;
      visit := RecordSubs(p);
      assert Facts() == Add(s0, p, parents, rule, geometry, visit);
      AddKeepsInv(s0, p, parents, rule, geometry, visit);
    }

    /** The sub-deduction loop of `_add_predicate`: each sub-fact is stored with rule "sub_deduction". */
    method RecordSubs(p: Pred) returns (ghost visit: seq<Deduction>)
      modifies this
      ensures Facts() == AddSubs(old(Facts()), visit)
      ensures IsListing(visit, SubData(p))
      ensures buffer == old(buffer)
    {
      ghost var s := Facts();
      visit := [];
      var todo := SubData(p);
      while todo != {}
        invariant NoDups(visit)
        invariant forall e | e in visit :: e in SubData(p) && e !in todo
        invariant forall e | e in SubData(p) :: e in visit || e in todo
        invariant todo <= SubData(p)
        invariant Facts() == AddSubs(s, visit) && buffer == old(buffer)
        decreases |todo|
      {
        var sub :| sub in todo;
        var e := Deduction(sub.fact, sub.parents, SubRule);
        ghost var before := Facts();
        if e.fact !in derivations {
          derivations := derivations[e.fact := []];
          order := order + [e.fact];
        }
        assert Facts() == EnsureKey(before, e.fact);
        if e !in derivations[e.fact] {
          derivations := derivations[e.fact := derivations[e.fact] + [e]];
        }
        assert Facts() == Put(before, e);
        AddSubsSnoc(s, visit, sub);
        visit := visit + [sub];
        todo := todo - {sub};
      }
    }

    /**
     * The loop of `__init__` over the initial predicates: each is added as an axiom;
     * the first invalid one stops it and is returned in `rejected` (Python raises
     * ValueError naming it, and no Problem results).
     */
    method Seed(initial: seq<Pred>) returns (rejected: Option<Pred>, ghost visits: seq<seq<Deduction>>)
      requires Valid()
      modifies this
      ensures Valid() && buffer == old(buffer)
      ensures rejected.None? <==> forall p | p in initial :: IsValid(p, geometry)
      ensures |visits| <= |initial| && (rejected.None? ==> |visits| == |initial|)
      ensures rejected.Some? ==>
        |visits| < |initial| && rejected.value == initial[|visits|] && !IsValid(rejected.value, geometry)
      ensures Facts() == AddAll(old(Facts()), Axioms(initial[..|visits|]), visits, geometry)
      ensures Visited(Axioms(initial[..|visits|]), visits, geometry)
    {
      ghost var s0 := Facts();
      visits := [];
      var i := 0;
      while i < |initial|
        invariant 0 <= i <= |initial| && |visits| == i
        invariant Valid() && buffer == old(buffer)
        invariant AllValid(initial[..i], geometry)
        invariant Visited(Axioms(initial[..i]), visits, geometry)
        invariant Facts() == AddAll(s0, Axioms(initial[..i]), visits, geometry)
      {
        if !IsValid(initial[i], geometry) {
          assert initial[i] in initial;
          rejected := Some(initial[i]);
          return;
        }
        assert initial[..i + 1][..i] == initial[..i];
        AxiomsSnoc(initial, i);
        var v := AddAxiom(initial[i], s0, Axioms(initial[..i]), visits);
        visits := visits + [v];
        i := i + 1;
      }
      rejected := None;
      assert initial[..i] == initial;
      AllValidMeans(initial, geometry);
    }

    /** One pass of the loop of `__init__`: a valid initial predicate is added as an axiom. */
    method AddAxiom(p: Pred, ghost s0: Store, ghost ds: seq<Deduction>, ghost visits: seq<seq<Deduction>>)
      returns (ghost v: seq<Deduction>)
      requires Valid() && IsValid(p, geometry)
      requires Visited(ds, visits, geometry) && Facts() == AddAll(s0, ds, visits, geometry)
      modifies this
      ensures Valid() && buffer == old(buffer)
      ensures Visited(ds + [Deduction(p, {}, "axiom")], visits + [v], geometry)
      ensures Facts() == AddAll(s0, ds + [Deduction(p, {}, "axiom")], visits + [v], geometry)
    {
      v := AddPredicate(p, {}, "axiom");
      AddAllSnoc(s0, ds, visits, Deduction(p, {}, "axiom"), v, geometry);
      VisitedSnoc(ds, visits, Deduction(p, {}, "axiom"), v, geometry);
    }

    /** `add_deduction`: queue a derivation for the next flush. */
    method AddDeduction(d: Deduction)
      modifies this
      ensures buffer == old(buffer) + [d]
      ensures Facts() == old(Facts())
    {
      buffer := buffer + [d];
    }

    /** `flush_deductions`: add every queued derivation in queue order, then empty the queue. */
    method Flush() returns (ghost visits: seq<seq<Deduction>>)
      requires Valid()
      modifies this
      ensures Valid() && buffer == []
      ensures |visits| == |old(buffer)|
      ensures Facts() == AddAll(old(Facts()), old(buffer), visits, geometry)
      ensures Visited(old(buffer), visits, geometry)
    {
      ghost var s0 := Facts();
      var queued := buffer;
      visits := [];
      var i := 0;
      while i < |queued|
        invariant 0 <= i <= |queued| && |visits| == i
        invariant Valid() && queued == old(buffer)
        invariant Visited(queued[..i], visits, geometry)
        invariant Facts() == AddAll(s0, queued[..i], visits, geometry)
      {
        var d := queued[i];
        var v := AddPredicate(d.fact, d.parents, d.rule);
        assert queued[..i + 1] == queued[..i] + [d];
        AddAllSnoc(s0, queued[..i], visits, d, v, geometry);
        VisitedSnoc(queued[..i], visits, d, v, geometry);
        visits := visits + [v];
        i := i + 1;
      }
      assert queued[..i] == queued;
      buffer := [];
    }

    /**
     * `can_deduce`: True only for a predicate already recorded.  Otherwise the
     * predicate's validity is cached, and when it is valid the derivations the algebraic
     * reasoner proposes for it (`proposals`, the result of `ar.try_deduce`) are queued.
     */
    method CanDeduce(p: Pred, proposals: seq<Deduction>) returns (b: bool)
      requires Valid()
      modifies this
      ensures Valid()
      ensures b <==> p in old(derivations)
      ensures derivations == old(derivations) && order == old(order)
      ensures possible == old(possible) + (if b || !IsValid(p, geometry) then {} else {p})
      ensures impossible == old(impossible) + (if b || IsValid(p, geometry) then {} else {p})
      ensures buffer == old(buffer) + (if !b && IsValid(p, geometry) then proposals else [])
    {
      if p in derivations {
        return true;
      }
      if p in impossible {
        return false;
      }
      if p !in possible {
        if IsValid(p, geometry) {
          possible := possible + {p};
        } else {
          impossible := impossible + {p};
          return false;
        }
      }
      buffer := buffer + proposals;
      b := false;
    }

    /** `check_possible` inside `search_ar`: the cached validity of `p`. */
    method CheckPossible(p: Pred) returns (b: bool)
      requires Valid()
      modifies this
      ensures Valid()
      ensures b == IsValid(p, geometry)
      ensures possible == old(possible) + (if b then {p} else {})
      ensures impossible == old(impossible) + (if b then {} else {p})
      ensures derivations == old(derivations) && order == old(order) && buffer == old(buffer)
    {
      if p in impossible {
        return false;
      }
      if p in possible {
        return true;
      }
      if IsValid(p, geometry) {
        possible := possible + {p};
        return true;
      } else {
        impossible := impossible + {p};
        return false;
      }
    }

    /**
     * `search_ar`: scan every Cong, Para, Perp and Eqangle over the problem's points
     * (listed in the unspecified order `pts`) and ask the algebraic reasoner `ar`
     * about each valid one not yet recorded.
     */
    /** The body of the scan loop of `search_ar`, for one candidate. */
    method Visit(c: Pred, ar: Pred -> seq<Deduction>)
      requires Valid()
      modifies this
      ensures Valid()
      ensures derivations == old(derivations) && order == old(order)
      ensures Caches(buffer, possible, impossible)
           == SweepStep(Caches(old(buffer), old(possible), old(impossible)), c, derivations.Keys, geometry, ar)
    {
      var ok := CheckPossible(c);
      if ok && c !in derivations {
        var _ := CanDeduce(c, ar(c));
      }
    }

    /**
     * The scan loop of `search_ar`: every candidate is checked for validity (which
     * fills the caches) and, when valid and not yet known, the AR engine's proposals
     * for it are queued.
     */
    method ScanCandidates(cands: seq<Pred>, ar: Pred -> seq<Deduction>)
      requires Valid()
      modifies this
      ensures Valid()
      ensures derivations == old(derivations) && order == old(order)
      ensures Caches(buffer, possible, impossible)
           == Sweep(Caches(old(buffer), old(possible), old(impossible)), cands, old(derivations).Keys, geometry, ar)
    {
      var keys := derivations.Keys;
      ghost var k0 := Caches(buffer, possible, impossible);
      var i := 0;
      while i < |cands|
        invariant 0 <= i <= |cands|
        invariant Valid() && derivations == old(derivations) && order == old(order)
        invariant Caches(buffer, possible, impossible) == Sweep(k0, cands[..i], keys, geometry, ar)
      {
        Visit(cands[i], ar);
        assert cands[..i + 1][..i] == cands[..i];
        i := i + 1;
      }
      assert cands[..i] == cands;
    }

    /**
     * `search_ar`: lists the problem's points, enumerates every Cong, Para, Perp and
     * Eqangle over them and scans the candidates; afterwards the caches hold exactly
     * the candidates' validity and the queue holds the proposals for the new valid ones.
     */
    method SearchAr(ar: Pred -> seq<Deduction>) returns (pts: seq<Point>)
      requires Valid()
      modifies this
      ensures Valid() && IsListing(pts, points)
      ensures derivations == old(derivations) && order == old(order)
      ensures buffer == old(buffer) + Queue(Candidates(pts), old(derivations).Keys, geometry, ar)
      ensures forall c | c in Candidates(pts) :: c in (if IsValid(c, geometry) then possible else impossible)
      ensures possible == old(possible) + Sift(Candidates(pts), geometry, true)
      ensures impossible == old(impossible) + Sift(Candidates(pts), geometry, false)
    {
      pts := ListSet(points);
      ScanCandidates(Candidates(pts), ar);
      SweepBuffer(Caches(old(buffer), old(possible), old(impossible)), Candidates(pts),
                  old(derivations).Keys, geometry, ar);
      SweepCaches(Caches(old(buffer), old(possible), old(impossible)), Candidates(pts),
                  old(derivations).Keys, geometry, ar);
      SiftMembers(Candidates(pts), geometry, true);
      SiftMembers(Candidates(pts), geometry, false);
    }

    /** `len(self.predicates)`: `order` lists every key once. */
    function Count(): nat
      reads this
    {
      |order|
    }

    /**
     * `is_solved`: every goal is a key of `predicates`; under the store invariant, every
     * goal has been inserted.
     */
    predicate IsSolved(): (solved: bool)
      reads this
      ensures solved <==> goals <= derivations.Keys
      ensures Valid() ==> (solved <==> forall g | g in goals :: g in order)
    {
      forall g | g in goals :: g in derivations
    }

    /**
     * `find_reachable_predicates`: a worklist from the goals through the parents of every
     * recorded derivation.  The result is the least set holding the goals that is closed
     * under taking parents.
     */
    method Reachable() returns (reach: set<Pred>)
      ensures IsReach(reach, goals, derivations)
    {
      reach := {};
      var todo := goals;
      ghost var universe := goals + Mentioned(derivations);
      while todo != {}
        invariant Worklist(derivations, goals, universe, reach, todo)
        decreases |universe - reach|, |todo|
      {
        var current :| current in todo;
        todo := todo - {current};
        if current in reach {
          continue;
        }
        ghost var (reach0, todo0) := (reach, todo);
        reach := reach + {current};
        if current in derivations {
          todo := PushParents(derivations[current], reach, todo);
        }
        WorklistStep(derivations, goals, universe, reach0, todo0, current, todo);
      }
    }

    /**
     * The axiom pass of `__str__`: in key order, each reachable predicate with a
     * derivation without parents is placed with the best of those.
     */
    method AxiomPass(reach: set<Pred>) returns (placed: seq<(Pred, Deduction)>, used: set<Pred>)
      requires Valid()
      ensures used == Used(placed) && Placed(derivations, reach, placed, |placed|)
      ensures used <= reach * derivations.Keys
      ensures AxiomsPlaced(derivations, reach, used)
    {
      placed, used := [], {};
      for i := 0 to |order|
        invariant AxiomPassInv(derivations, order, reach, placed, used, i)
      {
        var p := order[i];
        assert p in order;
        AxiomPassStep(derivations, order, reach, placed, used, i);
        if p in reach {
          var best := Pick(derivations[p], {});
          if best.Some? {
            placed := placed + [(p, best.value)];
            used := used + {p};
          }
        }
      }
    }

    /**
     * One round of the placement loop of `__str__`: in key order, each reachable
     * predicate not yet placed whose derivations include one with all parents placed is
     * placed with the best such derivation.  A round that places nothing leaves every
     * unplaced reachable predicate blocked.
     */
    method Round(reach: set<Pred>, placed0: seq<(Pred, Deduction)>, used0: set<Pred>, ghost axioms: nat)
      returns (placed: seq<(Pred, Deduction)>, used: set<Pred>)
      requires Valid() && used0 == Used(placed0) && Placed(derivations, reach, placed0, axioms)
      ensures used == Used(placed) && Placed(derivations, reach, placed, axioms)
      ensures placed0 <= placed
      ensures forall p | p in used :: p in used0 || (p in reach && p in derivations)
      ensures |placed| == |placed0| ==> Blocked(derivations, reach, used0)
    {
      placed, used := placed0, used0;
      for i := 0 to |order|
        invariant RoundInv(derivations, order, reach, placed0, placed, used, axioms, i)
      {
        var p := order[i];
        assert p in order;
        RoundStep(derivations, order, reach, placed0, placed, used, axioms, i);
        if p in reach && p !in used {
          var best := Pick(derivations[p], used);
          if best.Some? {
            placed := placed + [(p, best.value)];
            used := used + {p};
          }
        }
      }
      if |placed| == |placed0| {
        assert placed == placed0;
        forall p | p in reach && p in derivations && p !in used0
          ensures Pick(derivations[p], used0).None?
        {
          assert p in order;
          var k :| 0 <= k < |order| && order[k] == p;
        }
      }
    }

    /**
     * The round loop of `__str__`: rounds run while some goal is unplaced; when a round
     * places nothing the loop gives up (`stuck`), every unplaced reachable predicate
     * being blocked.
     */
    method Rounds(reach: set<Pred>, placed0: seq<(Pred, Deduction)>, used0: set<Pred>)
      returns (stuck: bool, placed: seq<(Pred, Deduction)>, used: set<Pred>)
      requires Valid() && used0 == Used(placed0) && Placed(derivations, reach, placed0, |placed0|)
      requires used0 <= reach * derivations.Keys
      ensures used == Used(placed) && Placed(derivations, reach, placed, |placed0|) && placed0 <= placed
      ensures stuck <==> !(goals <= used)
      ensures stuck ==> Blocked(derivations, reach, used)
    {
      ghost var ax := placed0;
      placed, used := placed0, used0;
      var prev := -1;
      while !(goals <= used)
        invariant RoundsInv(derivations, reach, ax, placed, used, prev)
        decreases |reach * derivations.Keys - used|, if prev == |used| then 0 else 1
      {
        if |used| == prev {
          return true, placed, used;
        }
        ghost var (placed1, used1, prev1) := (placed, used, prev);
        prev := |used|;
        placed, used := Round(reach, placed, used, |ax|);
        RoundsStep(derivations, reach, ax, placed1, used1, prev1, placed, used);
      }
      stuck := false;
    }

    /**
     * The output loop of `__str__`: `numbering` gives the i-th placed predicate the
     * number i + 1, and each line references its derivation's parents by number.
     */
    method Render(placed: seq<(Pred, Deduction)>, ghost reach: set<Pred>, ghost axioms: nat)
      returns (steps: seq<Step>)
      requires Placed(derivations, reach, placed, axioms)
      ensures Rendered(steps, placed, goals)
    {
      var numbering := Numbering(placed);
      steps := [];
      for i := 0 to |placed|
        invariant |steps| == i
        invariant forall k | 0 <= k < i :: StepOk(steps[k], placed, goals, k)
      {
        var step := Line(placed, numbering, i, reach, axioms);
        steps := steps + [step];
      }
    }

    /** One line of the output: number, predicate, rule name and parent numbers. */
    method Line(placed: seq<(Pred, Deduction)>, numbering: map<Pred, nat>, i: nat,
                ghost reach: set<Pred>, ghost axioms: nat) returns (step: Step)
      requires Placed(derivations, reach, placed, axioms) && i < |placed|
      requires forall j | 0 <= j < |placed| :: placed[j].0 in numbering && numbering[placed[j].0] == j + 1
      ensures StepOk(step, placed, goals, i)
    {
      var (p, d) := placed[i];
      PlacedParentsFirst(derivations, reach, placed, axioms, i);
      var refs, ps := ParentRefs(d.parents, numbering);
      RefsFromNumbering(numbering, placed, i, d.parents, ps, refs);
      var caption := if d.rule != "unknown" then d.rule else "";
      step := Step(i + 1, p, d, caption, refs, p in goals);
    }

    /**
     * `__str__`: the empty result when unsolved, "No goals specified" without goals,
     * otherwise the placement of the reachable predicates (axiom pass, then rounds) and
     * its printed steps; a round that places nothing while a goal is unplaced raises,
     * modelled as `Stuck`.
     */
    method Extract() returns (r: Extraction, ghost reach: set<Pred>, ghost placed: seq<(Pred, Deduction)>,
                              ghost axioms: nat)
      requires Valid()
      ensures r.Unsolved? <==> !IsSolved()
      ensures r.NoGoals? <==> IsSolved() && goals == {}
      ensures r.Proof? || r.Stuck? ==>
        && IsReach(reach, goals, derivations)
        && Placed(derivations, reach, placed, axioms)
        && AxiomsPlaced(derivations, reach, Used(placed[..axioms]))
      ensures r.Stuck? ==>
        && r.remaining == goals - Used(placed) && r.remaining != {}
        && Blocked(derivations, reach, Used(placed))
      ensures r.Proof? ==> goals <= Used(placed) && Rendered(r.steps, placed, goals)
    {
      reach, placed, axioms := {}, [], 0;
      if !IsSolved() {
        return Unsolved, reach, placed, axioms;
      }
      if goals == {} {
        return NoGoals, reach, placed, axioms;
      }
      var reachable := Reachable();
      var axiomatic, used0 := AxiomPass(reachable);
      var stuck, ordered, used := Rounds(reachable, axiomatic, used0);
      reach, placed, axioms := reachable, ordered, |axiomatic|;
      assert ordered[..axioms] == axiomatic;
      if stuck {
        return Stuck(goals - used), reach, placed, axioms;
      }
      var steps := Render(ordered, reachable, axioms);
      r := Proof(steps);
    }
  }
}
