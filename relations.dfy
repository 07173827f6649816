/**
 * The geometric relations of the prover (relations.py).
 *
 * Every Python predicate class becomes one constructor of `Pred`, holding exactly
 * the `data` the class's constructor stores.  Python compares predicates by class
 * and data (`Predicate.__eq__`), which is what structural equality of `Pred` gives:
 * two constructors never compare equal, and unordered Python `frozenset`s are Dafny
 * `set`s, so symmetric argument orders collapse to one value.
 */
module Relations {
  import opened Wrappers

  /** A point compares by coordinates and name; it prints as its name. */
  datatype Point = Point(x: real, y: real, name: string)

  /** `frozenset({a, b})`: an unordered segment (one point when a == b). */
  type Segment = set<Point>

  /** An ordered angle A-B-C, a Python 3-tuple. */
  type Triple = (Point, Point, Point)

  /** An ordered pair of segments AB/CD inside an `Eqratio`. */
  type Ratio = (Segment, Segment)

  datatype Pred =
    | Col(parts: set<Pred>)
    | Perp(segs: set<Segment>)
    | Cong(segs: set<Segment>)
    | Simtri1(parts: set<Pred>)
    | Simtri2(parts: set<Pred>)
    | Eqangle(angles: set<Triple>)
    | Para(segs: set<Segment>)
    | Contri1(parts: set<Pred>)
    | Contri2(parts: set<Pred>)
    | Cyclic(parts: set<Pred>)
    | Sameclock(angles: set<Triple>)
    | Midp(parts: set<Pred>)
    | Eqratio(ratios: set<Ratio>)
    | Aconst(a: Point, b: Point, c: Point, m: int, n: int)
    | Inter(parts: set<Pred>)

  /** The classes whose `data` is a frozenset of predicates. */
  predicate IsComposite(p: Pred) {
    p.Col? || p.Simtri1? || p.Simtri2? || p.Contri1? || p.Contri2? || p.Cyclic? || p.Midp? || p.Inter?
  }

  /** The lower-cased class name, the first word of a predicate's string form. */
  function ClassName(p: Pred): string {
    match p
    case Col(_) => "col"
    case Perp(_) => "perp"
    case Cong(_) => "cong"
    case Simtri1(_) => "simtri1"
    case Simtri2(_) => "simtri2"
    case Eqangle(_) => "eqangle"
    case Para(_) => "para"
    case Contri1(_) => "contri1"
    case Contri2(_) => "contri2"
    case Cyclic(_) => "cyclic"
    case Sameclock(_) => "sameclock"
    case Midp(_) => "midp"
    case Eqratio(_) => "eqratio"
    case Aconst(_, _, _, _, _) => "aconst"
    case Inter(_) => "inter"
  }

  // ---------------------------------------------------------------------------
  // The class constructors (`__init__` of each predicate class)
  // ---------------------------------------------------------------------------

  function Line(p: Point, q: Point): Segment {
    {p, q}
  }

  function MakePerp(a: Point, b: Point, c: Point, d: Point): Pred {
    Perp({Line(a, b), Line(c, d)})
  }

  function MakeCong(a: Point, b: Point, c: Point, d: Point): Pred {
    Cong({Line(a, b), Line(c, d)})
  }

  function MakePara(a: Point, b: Point, c: Point, d: Point): Pred {
    Para({Line(a, b), Line(c, d)})
  }

  function MakeEqangle(a: Point, b: Point, c: Point, d: Point, e: Point, f: Point): Pred {
    Eqangle({(a, b, c), (d, e, f)})
  }

  function MakeSameclock(a: Point, b: Point, c: Point, d: Point, e: Point, f: Point): Pred {
    Sameclock({(a, b, c), (d, e, f)})
  }

  function MakeEqratio(a: Point, b: Point, c: Point, d: Point,
                       e: Point, f: Point, g: Point, h: Point): Pred {
    Eqratio({(Line(a, b), Line(c, d)), (Line(e, f), Line(g, h))})
  }

  function MakeAconst(a: Point, b: Point, c: Point, m: int, n: int): Pred {
    Aconst(a, b, c, m, n)
  }

  function MakeCol(a: Point, b: Point, c: Point): Pred {
    Col({MakePara(a, b, b, c), MakePara(a, b, a, c), MakePara(b, c, a, c)})
  }

  function MakeSimtri1(a: Point, b: Point, c: Point, d: Point, e: Point, f: Point): Pred {
    Simtri1({
      MakeEqangle(a, b, c, d, e, f),
      MakeEqangle(b, c, a, e, f, d),
      MakeEqangle(c, a, b, f, d, e),
      MakeEqratio(a, c, b, c, d, f, e, f),
      MakeEqratio(a, c, b, a, d, f, e, d),
      MakeEqratio(b, c, a, b, e, f, d, e),
      MakeEqratio(a, c, d, f, b, c, e, f),
      MakeEqratio(b, c, e, f, b, a, e, d),
      MakeEqratio(b, a, e, d, a, c, d, f)
    })
  }

  function MakeSimtri2(a: Point, b: Point, c: Point, d: Point, e: Point, f: Point): Pred {
    Simtri2({
      MakeEqangle(a, b, c, f, e, d),
      MakeEqangle(b, c, a, d, f, e),
      MakeEqangle(c, a, b, e, d, f),
      MakeEqratio(a, c, a, b, d, f, d, e),
      MakeEqratio(a, b, b, c, d, e, e, f)
    })
  }

  function MakeContri1(a: Point, b: Point, c: Point, d: Point, e: Point, f: Point): Pred {
    Contri1({
      MakeEqangle(a, b, c, d, e, f),
      MakeEqangle(b, c, a, e, f, d),
      MakeEqangle(c, a, b, f, d, e),
      MakeCong(a, b, d, e),
      MakeCong(b, c, e, f),
      MakeCong(c, a, f, d)
    })
  }

  function MakeContri2(a: Point, b: Point, c: Point, d: Point, e: Point, f: Point): Pred {
    Contri2({
      MakeEqangle(c, a, b, e, d, f),
      MakeEqangle(b, c, a, d, f, e),
      MakeEqangle(a, b, c, f, e, d),
      MakeCong(a, b, d, e),
      MakeCong(b, c, e, f),
      MakeCong(a, c, d, f)
    })
  }

  function MakeCyclic(a: Point, b: Point, c: Point, d: Point): Pred {
    Cyclic({
      MakeEqangle(b, a, c, b, d, c),
      MakeEqangle(d, a, c, d, b, c),
      MakeEqangle(b, d, a, b, c, a),
      MakeEqangle(d, b, a, d, c, a)
    })
  }

  function MakeMidp(m: Point, a: Point, b: Point): Pred {
    Midp({MakeCol(m, a, b), MakeCong(a, m, m, b)})
  }

  function MakeInter(a: Point, b: Point, c: Point, d: Point, e: Point): Pred {
    Inter({MakeCol(a, b, c), MakeCol(a, d, e)})
  }

  // ---------------------------------------------------------------------------
  // Equality of predicates: which argument orders collapse
  // ---------------------------------------------------------------------------

  /** Cong, Para and Perp ignore the order inside each segment and the order of the segments. */
  lemma {:induction false} SegmentRelationsSymmetric(a: Point, b: Point, c: Point, d: Point)
    ensures MakeCong(a, b, c, d) == MakeCong(b, a, d, c) == MakeCong(c, d, a, b)
    ensures MakePara(a, b, c, d) == MakePara(b, a, d, c) == MakePara(c, d, a, b)
    ensures MakePerp(a, b, c, d) == MakePerp(b, a, d, c) == MakePerp(c, d, a, b)
  {
    assert Line(a, b) == Line(b, a) && Line(c, d) == Line(d, c);
  }

  /** Eqangle ignores the order of its two angles ... */
  lemma {:induction false} EqangleSymmetric(a: Point, b: Point, c: Point, d: Point, e: Point, f: Point)
    ensures MakeEqangle(a, b, c, d, e, f) == MakeEqangle(d, e, f, a, b, c)
  {
  }

  /** ... but each angle keeps its orientation: reversing A-B-C gives a different fact. */
  lemma {:induction false} EqangleKeepsOrder(a: Point, b: Point, c: Point, d: Point, e: Point, f: Point)
    requires a != c
    ensures MakeEqangle(a, b, c, d, e, f) != MakeEqangle(c, b, a, d, e, f)
  {
    if (d, e, f) == (c, b, a) {
      assert (a, b, c) in MakeEqangle(a, b, c, d, e, f).angles;
      assert (a, b, c) !in MakeEqangle(c, b, a, d, e, f).angles;
    } else {
      assert (c, b, a) in MakeEqangle(c, b, a, d, e, f).angles;
      assert (c, b, a) !in MakeEqangle(a, b, c, d, e, f).angles;
    }
  }

  /** Two predicates of different classes differ even when their data coincide. */
  lemma {:induction false} ClassesNeverEqual(s: set<Segment>, t: set<Triple>)
    ensures Cong(s) != Para(s) && Para(s) != Perp(s) && Cong(s) != Perp(s)
    ensures Eqangle(t) != Sameclock(t)
    ensures forall p: Pred, q: Pred :: ClassName(p) != ClassName(q) ==> p != q
  {
  }

  /** The three sides of a triangle as the collinearity constructor pairs them. */
  function ColParas(a: Point, b: Point, c: Point): set<Pred> {
    set s, t | s in {Line(a, b), Line(b, c), Line(a, c)} && t in {Line(a, b), Line(b, c), Line(a, c)} && s != t
      :: Para({s, t})
  }

  /**
   * For three distinct points, Col's data is the set of Para facts over every pair of
   * distinct sides, so it does not depend on the order in which the points are named.
   */
  lemma {:induction false} ColIsAllSidePairs(a: Point, b: Point, c: Point)
    requires a != b && b != c && a != c
    ensures MakeCol(a, b, c) == Col(ColParas(a, b, c))
  {
    var sides := {Line(a, b), Line(b, c), Line(a, c)};
    assert Line(a, b) != Line(b, c) by { assert a in Line(a, b) && a !in Line(b, c); }
    assert Line(a, b) != Line(a, c) by { assert b in Line(a, b) && b !in Line(a, c); }
    assert Line(b, c) != Line(a, c) by { assert b in Line(b, c) && b !in Line(a, c); }
    forall q | q in ColParas(a, b, c)
      ensures q in MakeCol(a, b, c).parts
    {
      var s, t :| s in sides && t in sides && s != t && q == Para({s, t});
      assert {s, t} == {Line(a, b), Line(b, c)} || {s, t} == {Line(a, b), Line(a, c)}
          || {s, t} == {Line(b, c), Line(a, c)};
    }
    assert MakePara(a, b, b, c) == Para({Line(a, b), Line(b, c)});
    assert MakePara(a, b, a, c) == Para({Line(a, b), Line(a, c)});
    assert MakePara(b, c, a, c) == Para({Line(b, c), Line(a, c)});
  }

  /** Col(a, b, c) is the same fact under every permutation of a, b, c. */
  lemma {:induction false} ColPermutationInvariant(a: Point, b: Point, c: Point)
    ensures MakeCol(a, b, c) == MakeCol(b, a, c) == MakeCol(a, c, b)
    ensures MakeCol(a, b, c) == MakeCol(b, c, a) == MakeCol(c, a, b) == MakeCol(c, b, a)
  {
    assert Line(a, b) == Line(b, a) && Line(b, c) == Line(c, b) && Line(a, c) == Line(c, a);
    assert {Line(a, b), Line(b, c)} == {Line(b, c), Line(a, b)};
    assert {Line(a, b), Line(a, c)} == {Line(a, c), Line(a, b)};
    assert {Line(b, c), Line(a, c)} == {Line(a, c), Line(b, c)};
  }

  // ---------------------------------------------------------------------------
  // String form (`Predicate.__str__`, `Point.__str__`)
  // ---------------------------------------------------------------------------

  /** `" ".join(str(arg) for arg in args)`, where a point prints as its name. */
  function Names(args: seq<Point>): string {
    if |args| == 0 then ""
    else if |args| == 1 then args[0].name
    else args[0].name + " " + Names(args[1..])
  }

  /** `f"{predicate} {args_str}"`: class name, a space, the argument names. */
  function Show(className: string, args: seq<Point>): string {
    className + " " + Names(args)
  }

  // ---------------------------------------------------------------------------
  // Derivations and sub-facts (`Deduction`, `to_sub_data`)
  // ---------------------------------------------------------------------------

  /** A derivation of `fact` from `parents` by the rule `rule`; equal iff all three are. */
  datatype Deduction = Deduction(fact: Pred, parents: set<Pred>, rule: string)

  /** The rule name the fact store gives to every sub-fact of a composite. */
  const SubRule: string := "sub_deduction"

  /** Every predicate nested, at any depth, inside a composite's data. */
  function Nested(p: Pred): set<Pred>
    decreases p
  {
    if IsComposite(p) then p.parts + (set c, q | c in p.parts && q in Nested(c) :: q)
    else {}
  }

  /**
   * `to_sub_data`: a derivation of each child from {the composite}, plus the children's
   * own sub-facts.  Non-composite data (segments, triples, ratios, Aconst's tuple) holds
   * no predicate and yields nothing.
   */
  function SubData(p: Pred): set<Deduction>
    decreases p
  {
    if IsComposite(p) then
      (set c | c in p.parts :: Deduction(c, {p}, SubRule))
      + (set c, d | c in p.parts && d in SubData(c) :: d)
    else {}
  }

  /** `q` is `p` itself or a composite nested in it, and `d` derives one of q's children from q alone. */
  ghost predicate FromHolder(d: Deduction, p: Pred) {
    exists q :: d.parents == {q} && IsComposite(q) && d.fact in q.parts && (q == p || q in Nested(p))
  }

  /** Each sub-fact derives a predicate nested in `p` from the one composite that directly holds it. */
  lemma {:induction false} SubDataSound(p: Pred)
    ensures forall d | d in SubData(p) :: d.rule == SubRule && d.fact in Nested(p) && FromHolder(d, p)
  {
    if IsComposite(p) {
      forall d | d in SubData(p)
        ensures d.rule == SubRule && d.fact in Nested(p) && FromHolder(d, p)
      {
        if c :| c in p.parts && d == Deduction(c, {p}, SubRule) {
          assert d.parents == {p};
        } else {
          var c :| c in p.parts && d in SubData(c);
          SubDataSound(c);
          assert d.fact in Nested(c);
          assert d.fact in Nested(p);
          var q :| d.parents == {q} && IsComposite(q) && d.fact in q.parts && (q == c || q in Nested(c));
          assert q in Nested(p);
        }
      }
    }
  }

  /** Every nested predicate appears in `to_sub_data`, derived from each composite that holds it. */
  lemma {:induction false} SubDataComplete(p: Pred)
    ensures forall q, c | (q == p || q in Nested(p)) && IsComposite(q) && c in q.parts ::
      Deduction(c, {q}, SubRule) in SubData(p)
  {
    if IsComposite(p) {
      forall c | c in p.parts {
        SubDataComplete(c);
      }
    }
  }

  /** The sub-facts of a sub-fact are sub-facts of the whole. */
  lemma {:induction false} SubDataClosed(p: Pred)
    ensures forall d | d in SubData(p) :: SubData(d.fact) <= SubData(p)
  {
    if IsComposite(p) {
      forall c | c in p.parts {
        SubDataClosed(c);
      }
    }
  }

  /** A collinearity fact unfolds into exactly its three Para facts, each derived from it. */
  lemma {:induction false} ColSubData(a: Point, b: Point, c: Point)
    ensures SubData(MakeCol(a, b, c)) ==
      set q | q in {MakePara(a, b, b, c), MakePara(a, b, a, c), MakePara(b, c, a, c)}
        :: Deduction(q, {MakeCol(a, b, c)}, SubRule)
  {
    var col := MakeCol(a, b, c);
    forall q | q in col.parts ensures SubData(q) == {} {
    }
    assert (set q, d | q in col.parts && d in SubData(q) :: d) == {};
  }

  // ---------------------------------------------------------------------------
  // Validity (`is_valid`)
  // ---------------------------------------------------------------------------

  /** The three points of an angle are pairwise distinct (`len({a, b, c}) == 3`). */
  predicate Distinct3(t: Triple) {
    t.0 != t.1 && t.1 != t.2 && t.0 != t.2
  }

  /**
   * The `is_valid` overrides of the leaf classes.  The structural guards are modelled;
   * the floating-point comparisons of lengths and angles are the oracle `geometry`.
   * Para, Sameclock and Eqratio use the guard `< 2` here (see LeafValidAsWritten).
   */
  function LeafValid(p: Pred, geometry: Pred -> bool): bool
    requires !IsComposite(p)
  {
    match p
    case Perp(segs) =>
      |segs| == 2 && (forall s | s in segs :: |s| != 1) && geometry(p)
    case Cong(segs) =>
      |segs| < 2 || geometry(p)
    case Eqangle(angles) =>
      (forall t | t in angles :: Distinct3(t)) && (|angles| == 1 || geometry(p))
    case Para(segs) =>
      |segs| < 2 || ((forall s | s in segs :: |s| != 1) && geometry(p))
    case Sameclock(angles) =>
      |angles| < 2 || geometry(p)
    case Eqratio(ratios) =>
      |ratios| < 2 || ((forall r | r in ratios :: |r.0| == 2 && |r.1| == 2) && geometry(p))
    case Aconst(_, _, _, _, _) =>
      geometry(p)
  }

  /**
   * The leaf checks exactly as relations.py writes them: Para, Sameclock and Eqratio
   * return True whenever their data has at most two elements.
   */
  function LeafValidAsWritten(p: Pred, geometry: Pred -> bool): bool
    requires !IsComposite(p)
  {
    match p
    case Para(segs) =>
      |segs| <= 2 || ((forall s | s in segs :: |s| != 1) && geometry(p))
    case Sameclock(angles) =>
      |angles| <= 2 || geometry(p)
    case Eqratio(ratios) =>
      |ratios| <= 2 || ((forall r | r in ratios :: |r.0| == 2 && |r.1| == 2) && geometry(p))
    case _ =>
      LeafValid(p, geometry)
  }

  /**
   * A composite is valid iff each predicate in its data is; other data is checked by its
   * class, with the corrected guard of LeafValid.
   */
  function IsValid(p: Pred, geometry: Pred -> bool): bool
    decreases p
  {
    if IsComposite(p) then forall c | c in p.parts :: IsValid(c, geometry)
    else LeafValid(p, geometry)
  }

  lemma {:induction false} CardPairAtMostTwo<T>(x: T, y: T)
    ensures |{x, y}| <= 2
  {
  }

  /**
   * As written, every Para, Sameclock and Eqratio the constructors build passes its
   * validity check, whatever the geometry says.
   */
  lemma {:induction false} AsWrittenGuardAlwaysPasses(a: Point, b: Point, c: Point, d: Point, e: Point, f: Point,
                                    g: Point, h: Point, geometry: Pred -> bool)
    ensures LeafValidAsWritten(MakePara(a, b, c, d), geometry)
    ensures LeafValidAsWritten(MakeSameclock(a, b, c, d, e, f), geometry)
    ensures LeafValidAsWritten(MakeEqratio(a, b, c, d, e, f, g, h), geometry)
  {
    CardPairAtMostTwo(Line(a, b), Line(c, d));
    CardPairAtMostTwo((a, b, c), (d, e, f));
    CardPairAtMostTwo((Line(a, b), Line(c, d)), (Line(e, f), Line(g, h)));
  }

  /**
   * The discrepancy on one input: two distinct, non-degenerate segments that the
   * geometry rejects (for instance perpendicular ones) still make a valid Para as written.
   */
  lemma {:induction false} AsWrittenAcceptsRejectedPara()
    ensures var o, p, q := Point(0.0, 0.0, "O"), Point(1.0, 0.0, "P"), Point(0.0, 1.0, "Q");
      var para := MakePara(o, p, o, q);
      LeafValidAsWritten(para, _ => false) && !LeafValid(para, _ => false)
  {
    var o, p, q := Point(0.0, 0.0, "O"), Point(1.0, 0.0, "P"), Point(0.0, 1.0, "Q");
    assert Line(o, p) != Line(o, q) by { assert p in Line(o, p) && p !in Line(o, q); }
    assert |{Line(o, p), Line(o, q)}| == 2;
    assert |Line(o, p)| == 2;
  }

  /**
   * The intended check: a Para, Sameclock or Eqratio over two distinct, well-formed
   * components is valid exactly when the geometric comparison accepts it.
   */
  lemma {:induction false} LeafValidConsultsGeometry(p: Pred, geometry: Pred -> bool)
    requires p.Para? || p.Sameclock? || p.Eqratio?
    requires p.Para? ==> |p.segs| == 2 && forall s | s in p.segs :: |s| == 2
    requires p.Sameclock? ==> |p.angles| == 2
    requires p.Eqratio? ==> |p.ratios| == 2 && forall r | r in p.ratios :: |r.0| == 2 && |r.1| == 2
    ensures IsValid(p, geometry) == geometry(p)
  {
  }

  /** A composite is valid iff every predicate nested in it, at any depth, is valid. */
  lemma {:induction false} CompositeValidIffNestedValid(p: Pred, geometry: Pred -> bool)
    requires IsComposite(p)
    ensures IsValid(p, geometry) <==> forall q | q in Nested(p) :: IsValid(q, geometry)
  {
    forall c | c in p.parts && IsComposite(c) {
      CompositeValidIffNestedValid(c, geometry);
    }
  }

  /** Hence every sub-fact of a valid predicate is valid. */
  lemma {:induction false} SubDataOfValidIsValid(p: Pred, geometry: Pred -> bool)
    requires IsValid(p, geometry)
    ensures forall d | d in SubData(p) :: IsValid(d.fact, geometry)
  {
    SubDataSound(p);
    if IsComposite(p) {
      CompositeValidIffNestedValid(p, geometry);
    }
  }

  // ---------------------------------------------------------------------------
  // Linear rows for the algebraic reasoner (`to_angle_rows`, `to_ratio_rows`)
  // ---------------------------------------------------------------------------

  /** `AngleRow`: sum of coeffs[line] * angle(line) equals `constant` (in units of pi). */
  datatype AngleRow = AngleRow(fact: Pred, constant: real, coeffs: map<Segment, int>)

  /** `RatioRow`: sum of coeffs[line] * log(length(line)) equals zero. */
  datatype RatioRow = RatioRow(fact: Pred, coeffs: map<Segment, int>)

  /** `data.get(k, 0)`. */
  function Get<K>(m: map<K, int>, k: K): int {
    if k in m then m[k] else 0
  }

  /** `data[k] = data.get(k, 0) + v`. */
  function Bump(m: map<Segment, int>, k: Segment, v: int): (r: map<Segment, int>)
    ensures r.Keys == m.Keys + {k}
    ensures Get(r, k) == Get(m, k) + v
    ensures forall j | j != k :: Get(r, j) == Get(m, j)
  {
    m[k := Get(m, k) + v]
  }

  /** The sum of all values of a map. */
  ghost function Total<K>(m: map<K, int>): int
    decreases |m|
  {
    if |m| == 0 then 0
    else
      var k :| k in m;
      m[k] + Total(m - {k})
  }

  lemma {:induction false} CardRemove<K>(m: map<K, int>, k: K)
    requires k in m
    ensures |m - {k}| == |m| - 1
  {
    assert (m - {k}).Keys == m.Keys - {k};
  }

  /** Summing may start from any key. */
  lemma {:induction false} TotalRemove<K>(m: map<K, int>, k: K)
    requires k in m
    ensures Total(m) == m[k] + Total(m - {k})
    decreases |m|
  {
    assert |m| != 0;
    var j :| j in m && Total(m) == m[j] + Total(m - {j});
    if j != k {
      var mj, mk := m - {j}, m - {k};
      CardRemove(m, j);
      CardRemove(m, k);
      assert mj - {k} == mk - {j};
      TotalRemove(mj, k);
      TotalRemove(mk, j);
    }
  }

  /** Bumping one entry by `v` changes the sum by `v`. */
  lemma {:induction false} TotalBump(m: map<Segment, int>, k: Segment, v: int)
    ensures Total(Bump(m, k, v)) == Total(m) + v
  {
    var r := Bump(m, k, v);
    TotalRemove(r, k);
    BumpedRest(m, k, v);
    if k in m {
      TotalRemove(m, k);
    } else {
      AbsentRest(m, k);
    }
  }

  lemma BumpedRest(m: map<Segment, int>, k: Segment, v: int)
    ensures Bump(m, k, v) - {k} == m - {k}
  {
    assert (Bump(m, k, v) - {k}).Keys == (m - {k}).Keys;
  }

  lemma AbsentRest(m: map<Segment, int>, k: Segment)
    requires k !in m
    ensures m - {k} == m
  {
    assert (m - {k}).Keys == m.Keys;
  }

  /** 1 when `s` is `line`, else 0. */
  function Ind(s: Segment, line: Segment): int {
    if s == line then 1 else 0
  }

  /** `list(frozenset)` of a two-element set: some fixed but unspecified order of its elements. */
  ghost function Listing<T>(s: set<T>): (r: (T, T))
    requires |s| == 2
    ensures r.0 != r.1 && s == {r.0, r.1}
  {
    TwoElements(s);
    var x, y :| x != y && s == {x, y};
    (x, y)
  }

  lemma {:induction false} TwoElements<T>(s: set<T>)
    requires |s| == 2
    ensures exists x, y :: x != y && s == {x, y}
  {
    var x :| x in s;
    assert |s - {x}| == 1;
    var y :| y in s - {x};
    assert |s - {x} - {y}| == 0;
    assert s == {x, y};
  }

  /** `{l0: 1, l1: -1}`, the row of Para and Cong (a dict literal: a later key overwrites). */
  function PairCoeffs(l0: Segment, l1: Segment): map<Segment, int> {
    map[l0 := 1][l1 := -1]
  }

  /**
   * `+1` for `a`, `-1` for `b`, `-1` for `c`, `+1` for `d`, accumulated with
   * `data[k] = data.get(k, 0) + v` so that coinciding segments add up.
   */
  function SignedRow(a: Segment, b: Segment, c: Segment, d: Segment): (r: map<Segment, int>)
    ensures forall s :: Get(r, s) == Ind(s, a) - Ind(s, b) - Ind(s, c) + Ind(s, d)
  {
    Bump(Bump(Bump(Bump(map[], a, 1), b, -1), c, -1), d, 1)
  }

  /** The four additive updates of `Eqangle.to_angle_rows`: angle t0 minus angle t1. */
  function AngleCoeffs(t0: Triple, t1: Triple): map<Segment, int> {
    SignedRow(Line(t0.0, t0.1), Line(t0.1, t0.2), Line(t1.0, t1.1), Line(t1.1, t1.2))
  }

  /**
   * The row of `Eqratio`, log l0a - log l0b - log l1a + log l1b, accumulated additively
   * the way `Eqangle` does (the dict literal of relations.py is RatioCoeffsAsWritten).
   */
  function RatioCoeffs(r0: Ratio, r1: Ratio): map<Segment, int> {
    SignedRow(r0.0, r0.1, r1.0, r1.1)
  }

  /** `{l0a: 1, l0b: -1, l1a: -1, l1b: 1}` as written: a coinciding key keeps only its last value. */
  function RatioCoeffsAsWritten(r0: Ratio, r1: Ratio): map<Segment, int> {
    map[r0.0 := 1][r0.1 := -1][r1.0 := -1][r1.1 := 1]
  }

  /** The coefficients of a signed row sum to 0. */
  lemma {:induction false} SignedRowBalanced(a: Segment, b: Segment, c: Segment, d: Segment)
    ensures Total(SignedRow(a, b, c, d)) == 0
  {
    var m0 := Bump(map[], a, 1);
    var m1 := Bump(m0, b, -1);
    var m2 := Bump(m1, c, -1);
    TotalBump(map[], a, 1);
    TotalBump(m0, b, -1);
    TotalBump(m1, c, -1);
    TotalBump(m2, d, 1);
  }

  /** The literal rows of Para and Cong balance because the two segments differ. */
  lemma {:induction false} PairCoeffsBalanced(l0: Segment, l1: Segment)
    requires l0 != l1
    ensures Get(PairCoeffs(l0, l1), l0) == 1 && Get(PairCoeffs(l0, l1), l1) == -1
    ensures Total(PairCoeffs(l0, l1)) == 0
  {
    PairRest(l0, l1);
    TotalRemove(PairCoeffs(l0, l1), l1);
    TotalRemove(map[l0 := 1], l0);
  }

  lemma PairRest(l0: Segment, l1: Segment)
    requires l0 != l1
    ensures PairCoeffs(l0, l1) - {l1} == map[l0 := 1]
    ensures map[l0 := 1] - {l0} == map[]
  {
  }

  /**
   * Two ratios sharing their numerator, XY/ZW = XY/UV: as written, both listings give a row
   * whose coefficients sum to -1 (it states UV = XY * ZW); the additive row cancels XY and
   * states ZW = UV.
   */
  lemma {:induction false} RatioCoeffsAsWrittenUnbalanced(x: Segment, y: Segment, z: Segment)
    requires x != y && y != z && x != z
    ensures Total(RatioCoeffsAsWritten((x, y), (x, z))) == -1
    ensures Total(RatioCoeffsAsWritten((x, z), (x, y))) == -1
    ensures Total(RatioCoeffs((x, y), (x, z))) == 0 && Get(RatioCoeffs((x, y), (x, z)), x) == 0
  {
    OverwrittenLiteralTotal(x, y, z);
    OverwrittenLiteralTotal(x, z, y);
    SignedRowBalanced(x, y, x, z);
  }

  /** The predicate `eqratio A B C D A B E F` over distinct points has exactly such data. */
  lemma {:induction false} EqratioSharedNumerator(a: Point, b: Point, c: Point, d: Point, e: Point, f: Point)
    requires a != c && a != d && a != e && a != f && c != e && c != f
    ensures MakeEqratio(a, b, c, d, a, b, e, f).ratios == {(Line(a, b), Line(c, d)), (Line(a, b), Line(e, f))}
    ensures Total(RatioCoeffsAsWritten((Line(a, b), Line(c, d)), (Line(a, b), Line(e, f)))) == -1
  {
    SegmentsDiffer(a, b, c, d, e, f);
    RatioCoeffsAsWrittenUnbalanced(Line(a, b), Line(c, d), Line(e, f));
  }

  lemma SegmentsDiffer(a: Point, b: Point, c: Point, d: Point, e: Point, f: Point)
    requires a != c && a != d && a != e && a != f && c != e && c != f
    ensures Line(a, b) != Line(c, d) && Line(a, b) != Line(e, f) && Line(c, d) != Line(e, f)
  {
    assert a in Line(a, b) && a !in Line(c, d) && a !in Line(e, f);
    assert c in Line(c, d) && c !in Line(e, f);
  }

  /** `{x: 1, y: -1, x: -1, z: 1}` keeps x's last value, so its values sum to -1. */
  lemma {:induction false} OverwrittenLiteralTotal<K>(x: K, y: K, z: K)
    requires x != y && y != z && x != z
    ensures Total(map[x := 1][y := -1][x := -1][z := 1]) == -1
  {
    LiteralRest(x, y, z);
    TotalRemove(map[x := 1][y := -1][x := -1][z := 1], x);
    TotalRemove(map[y := -1][z := 1], y);
    TotalRemove(map[z := 1], z);
  }

  lemma LiteralRest<K>(x: K, y: K, z: K)
    requires x != y && y != z && x != z
    ensures map[x := 1][y := -1][x := -1][z := 1] - {x} == map[y := -1][z := 1]
    ensures map[y := -1][z := 1] - {y} == map[z := 1]
    ensures map[z := 1] - {z} == map[]
  {
  }

  /**
   * `to_angle_rows`, as a multiset since Python returns the rows in frozenset order.
   * None where Python raises: Perp whose data is not two segments (IndexError) and
   * Aconst with n == 0 (ZeroDivisionError).  Composites collect the rows of their
   * children of one class (`collect_rows`).
   */
  ghost function AngleRows(p: Pred): Option<multiset<AngleRow>>
    decreases p, 2
  {
    if IsComposite(p) then CollectAngleRows(p, p.parts, AngleClass(p))
    else match p
      case Perp(segs) =>
        if |segs| != 2 then None
        else
          var (l0, l1) := Listing(segs);
          Some(multiset{AngleRow(p, 1.0 / 2.0, map[l0 := 1][l1 := 1])})
      case Para(segs) =>
        if |segs| != 2 then Some(multiset{AngleRow(p, 0.0, map[])})
        else
          var (l0, l1) := Listing(segs);
          Some(multiset{AngleRow(p, 0.0, PairCoeffs(l0, l1))})
      case Eqangle(angles) =>
        if |angles| != 2 then Some(multiset{AngleRow(p, 0.0, map[])})
        else
          var (t0, t1) := Listing(angles);
          Some(multiset{AngleRow(p, 0.0, AngleCoeffs(t0, t1))})
      case Aconst(a, b, c, m, n) =>
        if n == 0 then None
        else Some(multiset{AngleRow(p, m as real / (n * 2) as real, map[Line(a, b) := 1][Line(b, c) := -1])})
      case _ => Some(multiset{})
  }

  /** The class of the children whose angle rows a composite collects. */
  function AngleClass(p: Pred): (cls: string)
    requires IsComposite(p)
    ensures cls == "para" || cls == "col" || cls == "eqangle"
  {
    match p
    case Col(_) => "para"
    case Inter(_) => "col"
    case Midp(_) => "col"
    case _ => "eqangle"
  }

  /** The child `collect_rows` takes next: the frozenset's iteration order is not fixed. */
  ghost function AnyPart(parts: set<Pred>): (c: Pred)
    requires parts != {}
    ensures c in parts
  {
    var c :| c in parts;
    c
  }

  /** `collect_rows(data, cls, to_angle_rows)` over the children `parts` of `p`. */
  ghost function CollectAngleRows(p: Pred, parts: set<Pred>, cls: string): Option<multiset<AngleRow>>
    requires IsComposite(p) && parts <= p.parts
    decreases p, 1, |parts|
  {
    if parts == {} then Some(multiset{})
    else
      var c := AnyPart(parts);
      var rest := CollectAngleRows(p, parts - {c}, cls);
      if ClassName(c) != cls then rest
      else match (AngleRows(c), rest)
        case (Some(x), Some(y)) => Some(x + y)
        case _ => None
  }

  /**
   * `to_ratio_rows`.  Cong over one segment gives one empty row; Eqratio whose data is not
   * two ratios gives none; Eqratio's row is the additive RatioCoeffs.
   */
  ghost function RatioRows(p: Pred): multiset<RatioRow>
    decreases p, 2
  {
    if IsComposite(p) then
      if RatioClass(p) == "" then multiset{} else CollectRatioRows(p, p.parts, RatioClass(p))
    else match p
      case Cong(segs) =>
        if |segs| != 2 then multiset{RatioRow(p, map[])}
        else
          var (l0, l1) := Listing(segs);
          multiset{RatioRow(p, PairCoeffs(l0, l1))}
      case Eqratio(ratios) =>
        if |ratios| != 2 then multiset{}
        else
          var (r0, r1) := Listing(ratios);
          multiset{RatioRow(p, RatioCoeffs(r0, r1))}
      case _ => multiset{}
  }

  /**
   * The class of the children whose ratio rows a composite collects; empty for Col,
   * Inter and Cyclic, which inherit the base class's empty `to_ratio_rows`.
   */
  function RatioClass(p: Pred): (cls: string)
    requires IsComposite(p)
    ensures cls == "" || cls == "cong" || cls == "eqratio"
  {
    match p
    case Simtri1(_) => "eqratio"
    case Simtri2(_) => "eqratio"
    case Contri1(_) => "cong"
    case Contri2(_) => "cong"
    case Midp(_) => "cong"
    case _ => ""
  }

  /** `collect_rows(data, cls, to_ratio_rows)` over the children `parts` of `p`. */
  ghost function CollectRatioRows(p: Pred, parts: set<Pred>, cls: string): multiset<RatioRow>
    requires IsComposite(p) && parts <= p.parts
    decreases p, 1, |parts|
  {
    if parts == {} then multiset{}
    else
      var c := AnyPart(parts);
      var rest := CollectRatioRows(p, parts - {c}, cls);
      if ClassName(c) != cls then rest else RatioRows(c) + rest
  }

  /**
   * Every angle row of a composite comes from a Para or Eqangle nested in it, has constant
   * 0 and coefficients summing to 0; a Para or Eqangle row balances on its own.
   */
  lemma {:induction false} AngleRowsBalanced(p: Pred)
    requires AngleRows(p).Some?
    ensures forall r | r in AngleRows(p).value ::
      (r.fact.Para? || r.fact.Eqangle?) ==> r.constant == 0.0 && Total(r.coeffs) == 0
    ensures IsComposite(p) ==> forall r | r in AngleRows(p).value ::
      (r.fact.Para? || r.fact.Eqangle?) && r.fact in Nested(p)
    decreases p, 2
  {
    if IsComposite(p) {
      CollectAngleRowsBalanced(p, p.parts, AngleClass(p));
    } else if p.Para? {
      if |p.segs| == 2 {
        var (l0, l1) := Listing(p.segs);
        PairCoeffsBalanced(l0, l1);
      } else {
        var empty: map<Segment, int> := map[];
        assert Total(empty) == 0;
      }
    } else if p.Eqangle? {
      if |p.angles| == 2 {
        var (t0, t1) := Listing(p.angles);
        SignedRowBalanced(Line(t0.0, t0.1), Line(t0.1, t0.2), Line(t1.0, t1.1), Line(t1.1, t1.2));
      } else {
        var empty: map<Segment, int> := map[];
        assert Total(empty) == 0;
      }
    }
  }

  lemma {:induction false} CollectAngleRowsBalanced(p: Pred, parts: set<Pred>, cls: string)
    requires IsComposite(p) && parts <= p.parts
    requires cls == "para" || cls == "col" || cls == "eqangle"
    requires CollectAngleRows(p, parts, cls).Some?
    ensures forall r | r in CollectAngleRows(p, parts, cls).value ::
      (r.fact.Para? || r.fact.Eqangle?) && r.fact in Nested(p)
      && r.constant == 0.0 && Total(r.coeffs) == 0
    decreases p, 1, |parts|
  {
    if parts != {} {
      var c := AnyPart(parts);
      CollectAngleRowsBalanced(p, parts - {c}, cls);
      if ClassName(c) == cls && AngleRows(c).Some? {
        ChildAngleRowsBalanced(p, c, cls);
      }
    }
  }

  /** The rows one collected child contributes are balanced rows of predicates nested in `p`. */
  lemma {:induction false} ChildAngleRowsBalanced(p: Pred, c: Pred, cls: string)
    requires IsComposite(p) && c in p.parts && ClassName(c) == cls
    requires cls == "para" || cls == "col" || cls == "eqangle"
    requires AngleRows(c).Some?
    ensures forall r | r in AngleRows(c).value ::
      (r.fact.Para? || r.fact.Eqangle?) && r.fact in Nested(p)
      && r.constant == 0.0 && Total(r.coeffs) == 0
    decreases p, 0
  {
    AngleRowsBalanced(c);
    if c.Col? {
      forall r | r in AngleRows(c).value ensures r.fact in Nested(p) {
        assert r.fact in Nested(c);
      }
    }
  }

  /** Every ratio row, of any predicate, has coefficients summing to 0. */
  lemma {:induction false} RatioRowsBalanced(p: Pred)
    ensures forall r | r in RatioRows(p) :: Total(r.coeffs) == 0
    ensures IsComposite(p) ==> forall r | r in RatioRows(p) :: (r.fact.Cong? || r.fact.Eqratio?) && r.fact in p.parts
    decreases p, 2
  {
    if IsComposite(p) {
      if RatioClass(p) != "" {
        CollectRatioRowsBalanced(p, p.parts, RatioClass(p));
      }
    } else if p.Cong? {
      if |p.segs| == 2 {
        var (l0, l1) := Listing(p.segs);
        PairCoeffsBalanced(l0, l1);
      } else {
        var empty: map<Segment, int> := map[];
        assert Total(empty) == 0;
      }
    } else if p.Eqratio? {
      if |p.ratios| == 2 {
        var (r0, r1) := Listing(p.ratios);
        SignedRowBalanced(r0.0, r0.1, r1.0, r1.1);
      }
    }
  }

  lemma {:induction false} CollectRatioRowsBalanced(p: Pred, parts: set<Pred>, cls: string)
    requires IsComposite(p) && parts <= p.parts
    requires cls == "cong" || cls == "eqratio"
    ensures forall r | r in CollectRatioRows(p, parts, cls) ::
      (r.fact.Cong? || r.fact.Eqratio?) && r.fact in p.parts && Total(r.coeffs) == 0
    decreases p, 1, |parts|
  {
    if parts != {} {
      var c := AnyPart(parts);
      CollectRatioRowsBalanced(p, parts - {c}, cls);
      if ClassName(c) == cls {
        RatioRowsBalanced(c);
      }
    }
  }

  /**
   * A Para, Perp, Eqangle or Aconst that has angle rows has exactly one, about itself;
   * a Para whose two lines coincide, or an Eqangle whose two angles do, gives empty data.
   */
  lemma {:induction false} LeafAngleRowSingle(p: Pred)
    requires p.Para? || p.Perp? || p.Eqangle? || p.Aconst?
    requires AngleRows(p).Some?
    ensures |AngleRows(p).value| == 1
    ensures forall r | r in AngleRows(p).value :: r.fact == p
    ensures (p.Para? && |p.segs| < 2) || (p.Eqangle? && |p.angles| < 2) ==>
      AngleRows(p).value == multiset{AngleRow(p, 0.0, map[])}
  {
  }

  /** `Eqangle(a, b, c, a, b, c)` states nothing: its one row has no coefficients. */
  lemma {:induction false} CoincidingAnglesEmptyRow(a: Point, b: Point, c: Point)
    ensures AngleRows(MakeEqangle(a, b, c, a, b, c)) == Some(multiset{AngleRow(MakeEqangle(a, b, c, a, b, c), 0.0, map[])})
  {
    assert MakeEqangle(a, b, c, a, b, c).angles == {(a, b, c)};
  }

  /**
   * A Cong has exactly one ratio row, empty when its two segments coincide; an Eqratio has
   * one row when its two ratios differ and none when they coincide.
   */
  lemma {:induction false} LeafRatioRowCount(p: Pred)
    requires p.Cong? || p.Eqratio?
    ensures p.Cong? ==> |RatioRows(p)| == 1
    ensures p.Cong? && |p.segs| < 2 ==> RatioRows(p) == multiset{RatioRow(p, map[])}
    ensures p.Eqratio? ==> |RatioRows(p)| == (if |p.ratios| == 2 then 1 else 0)
    ensures forall r | r in RatioRows(p) :: r.fact == p
  {
  }

  /** `Eqratio(a, b, c, d, a, b, c, d)` contributes no row at all. */
  lemma {:induction false} CoincidingRatiosNoRow(a: Point, b: Point, c: Point, d: Point)
    ensures RatioRows(MakeEqratio(a, b, c, d, a, b, c, d)) == multiset{}
  {
    assert |MakeEqratio(a, b, c, d, a, b, c, d).ratios| == 1;
  }
}
