/**
 * The command-line driver (solve.py): building a problem from a manual problem
 * string, and the bounded loop of `prove`.
 */
module Solve {
  import opened Wrappers
  import opened Relations
  import opened ReadInRelations
  import opened ProofOrder
  import opened Problems

  // ---------------------------------------------------------------------------
  // Manual mode of `construct_problem`: point names and the initial problem
  // ---------------------------------------------------------------------------

  /** `str.isalpha()`, for ASCII letters. */
  predicate IsAlpha(token: string) {
    |token| > 0 && forall i | 0 <= i < |token| :: 'a' <= token[i] <= 'z' || 'A' <= token[i] <= 'Z'
  }

  /** `str.split()` without a separator: the maximal runs of non-whitespace. */
  function Words(s: string): seq<string> {
    Filled(SplitRuns(s, IsSpace))
  }

  /** The tokens of one `;`-section: `section.strip().split()`. */
  function Tokens(section: string): seq<string> {
    Words(Strip(section))
  }

  /** The alphabetic tokens among `tokens[1..j]`. */
  function AlphaTail(tokens: seq<string>, j: nat): set<string>
    requires j <= |tokens|
  {
    if j <= 1 then {}
    else AlphaTail(tokens, j - 1) + (if IsAlpha(tokens[j - 1]) then {tokens[j - 1]} else {})
  }

  /** The tokens of each section. */
  function TokenLists(sections: seq<string>): (lists: seq<seq<string>>)
    ensures |lists| == |sections| && forall i | 0 <= i < |sections| :: lists[i] == Tokens(sections[i])
  {
    seq(|sections|, i requires 0 <= i < |sections| => Tokens(sections[i]))
  }

  /** The point names declared by sections with the tokens `lists`. */
  function Declared(lists: seq<seq<string>>): set<string>
    decreases |lists|
  {
    if |lists| == 0 then {}
    else
      var last := lists[|lists| - 1];
      Declared(lists[..|lists| - 1]) + AlphaTail(last, |last|)
  }

  /** Every name of `names` at the dummy coordinates (0.0, 0.0). */
  function AtOrigin(names: set<string>): map<string, (real, real)> {
    map name | name in names :: (0.0, 0.0)
  }

  /** The points table manual mode builds. */
  function PointTable(text: string): map<string, (real, real)> {
    AtOrigin(Declared(TokenLists(Pieces(text))))
  }

  /** The loop of manual mode that fills `points`, one section at a time. */
  method ScanPoints(text: string) returns (points: map<string, (real, real)>)
    ensures points == PointTable(text)
  {
    var sections := Pieces(text);
    ghost var lists := TokenLists(sections);
    points := map[];
    for i := 0 to |sections|
      invariant points == AtOrigin(Declared(lists[..i]))
    {
      assert lists[..i + 1][..i] == lists[..i];
      points := ScanSectionOf(points, sections[i], Declared(lists[..i]));
    }
    assert lists[..|sections|] == lists;
  }

  /** One pass of the outer loop: a blank section is skipped, any other is scanned. */
  method ScanSectionOf(points: map<string, (real, real)>, raw: string, ghost names: set<string>)
    returns (points': map<string, (real, real)>)
    requires points == AtOrigin(names)
    ensures points' == AtOrigin(names + AlphaTail(Tokens(raw), |Tokens(raw)|))
  {
    var section := Strip(raw);
    if section == "" {
      BlankHasNoWords();
      return points;
    }
    points' := ScanSection(points, Words(section));
    ScanStep(points, names, Words(section), points');
  }

  /** Adding a section's points to a table at the origin gives the table of the union. */
  lemma {:induction false} ScanStep(points: map<string, (real, real)>, names: set<string>, tokens: seq<string>,
                                    points': map<string, (real, real)>)
    requires points == AtOrigin(names)
    requires points'.Keys == points.Keys + AlphaTail(tokens, |tokens|)
    requires forall name | name in points' :: points'[name] == (0.0, 0.0) || (name in points && points'[name] == points[name])
    ensures points' == AtOrigin(names + AlphaTail(tokens, |tokens|))
  {
  }

  /** The inner loop: `points[token] = (0.0, 0.0)` for each alphabetic token after the first. */
  method ScanSection(points: map<string, (real, real)>, tokens: seq<string>) returns (points': map<string, (real, real)>)
    ensures points'.Keys == points.Keys + AlphaTail(tokens, |tokens|)
    ensures forall name | name in points' :: points'[name] == if name in points && name !in AlphaTail(tokens, |tokens|) then points[name] else (0.0, 0.0)
  {
    points' := points;
    var j := 1;
    while j < |tokens|
      invariant 1 <= j
      invariant j <= |tokens| || j == 1
      invariant points'.Keys == points.Keys + AlphaTail(tokens, if j <= |tokens| then j else 0)
      invariant forall name | name in points' ::
        points'[name] ==
        if name in points && name !in AlphaTail(tokens, if j <= |tokens| then j else 0) then points[name] else (0.0, 0.0)
    {
      if IsAlpha(tokens[j]) {
        points' := points'[tokens[j] := (0.0, 0.0)];
      }
      j := j + 1;
    }
  }

  /** A blank section has no tokens. */
  lemma {:induction false} BlankHasNoWords()
    ensures Words("") == []
  {
    assert FirstWhere("", IsSpace) == 0;
    assert SplitRuns("", IsSpace) == [""];
  }

  /** `AlphaTail` holds exactly the alphabetic tokens after the first. */
  lemma {:induction false} AlphaTailMeans(tokens: seq<string>, j: nat, name: string)
    requires j <= |tokens|
    ensures name in AlphaTail(tokens, j) <==> exists k | 1 <= k < j :: tokens[k] == name && IsAlpha(name)
    decreases j
  {
    if j > 1 {
      AlphaTailMeans(tokens, j - 1, name);
    }
  }

  /**
   * A name is declared exactly when it is an alphabetic token, other than the first,
   * of some section: a section's first token is never a point on its own account.
   */
  lemma {:induction false} DeclaredMeans(lists: seq<seq<string>>, name: string)
    ensures name in Declared(lists) <==>
      exists i, k | 0 <= i < |lists| && 1 <= k < |lists[i]| :: lists[i][k] == name && IsAlpha(name)
    decreases |lists|
  {
    if |lists| > 0 {
      var n := |lists| - 1;
      DeclaredMeans(lists[..n], name);
      AlphaTailMeans(lists[n], |lists[n]|, name);
      if name in Declared(lists[..n]) {
        var i, k :| 0 <= i < n && 1 <= k < |lists[..n][i]| && lists[..n][i][k] == name && IsAlpha(name);
        assert lists[i][k] == name;
      }
      if exists i, k | 0 <= i < |lists| && 1 <= k < |lists[i]| :: lists[i][k] == name && IsAlpha(name) {
        var i, k :| 0 <= i < |lists| && 1 <= k < |lists[i]| && lists[i][k] == name && IsAlpha(name);
        if i < n {
          assert lists[..n][i][k] == name;
        }
      }
    }
  }

  /**
   * In manual mode a name gets a point exactly when it is an alphabetic token, other
   * than the first, of some `;`-section, and every point sits at (0.0, 0.0).
   */
  lemma {:induction false} PointTableMeans(text: string, name: string)
    ensures name in PointTable(text) <==>
      exists i, k | 0 <= i < |Pieces(text)| && 1 <= k < |Tokens(Pieces(text)[i])| ::
        Tokens(Pieces(text)[i])[k] == name && IsAlpha(name)
    ensures name in PointTable(text) ==> PointTable(text)[name] == (0.0, 0.0)
  {
    var lists := TokenLists(Pieces(text));
    DeclaredMeans(lists, name);
  }

  /** Why `construct_problem` fails. */
  datatype ConstructError =
    | ParseFailed(error: ParseError)  // raised by `parse_string`
    | InvalidInitial(premise: Pred)   // ValueError from `Problem.__init__`

  /** `{Point(name=k, x=v[0], y=v[1]) for k, v in points.items()}`. */
  function PointSet(points: map<string, (real, real)>): set<Point> {
    set name | name in points :: Point(points[name].0, points[name].1, name)
  }

  /** `set(xs)`. */
  function ToSet<T>(xs: seq<T>): set<T> {
    set x | x in xs
  }

  /**
   * `Problem(set(premises), set(goals), points)`: the fields are set, then the premises
   * are added as axioms in `order`, one iteration order of their set; the first invalid
   * one raises ValueError, modelled as `InvalidInitial`.
   */
  method NewProblem(premises: seq<Pred>, goals: seq<Pred>, points: set<Point>, geometry: Pred -> bool)
    returns (r: Result<Problem, ConstructError>, ghost order: seq<Pred>, ghost visits: seq<seq<Deduction>>)
    ensures IsListing(order, ToSet(premises))
    ensures r.Err? ==> r.error.InvalidInitial? && r.error.premise in premises && !IsValid(r.error.premise, geometry)
    ensures r.Ok? ==>
      && (forall p | p in premises :: IsValid(p, geometry))
      && fresh(r.value) && r.value.Valid() && r.value.buffer == []
      && r.value.goals == ToSet(goals) && r.value.points == points && r.value.geometry == geometry
      && |visits| == |order|
      && r.value.Facts() == AddAll(EmptyStore, Axioms(order), visits, geometry)
      && (forall p | p in premises :: Has(r.value.Facts(), Deduction(p, {}, "axiom")))
  {
    var problem := new Problem(ToSet(goals), points, geometry);
    var listed := ListSet(ToSet(premises));
    order := listed;
    var rejected;
    rejected, visits := problem.Seed(listed);
    if rejected.Some? {
      assert rejected.value in ToSet(premises);
      return Err(InvalidInitial(rejected.value)), order, visits;
    }
    assert order[..|visits|] == order;
    AddAllRecords(EmptyStore, Axioms(order), visits, geometry);
    forall p | p in premises
      ensures Has(problem.Facts(), Deduction(p, {}, "axiom"))
    {
      assert p in ToSet(premises);
      var i :| 0 <= i < |order| && order[i] == p;
      assert Axioms(order)[i] == Deduction(p, {}, "axiom");
    }
    r := Ok(problem);
  }

  /**
   * `construct_problem` in manual mode (a non-empty problem string; the empty string
   * selects file mode): scan the point names, parse the string against them, and build
   * the problem.
   */
  method ConstructProblem(text: string, geometry: Pred -> bool)
    returns (r: Result<Problem, ConstructError>, ghost order: seq<Pred>, ghost visits: seq<seq<Deduction>>)
    requires text != ""
    ensures var parsed := ParseProblem(text, PointTable(text));
      && (parsed.Err? <==> r.Err? && r.error.ParseFailed?)
      && (parsed.Err? ==> r.error == ParseFailed(parsed.error))
      && (parsed.Ok? ==> IsListing(order, ToSet(parsed.value.0)))
      && (r.Err? && r.error.InvalidInitial? ==>
            parsed.Ok? && r.error.premise in parsed.value.0 && !IsValid(r.error.premise, geometry))
      && (r.Ok? ==>
            && parsed.Ok?
            && (forall p | p in parsed.value.0 :: IsValid(p, geometry))
            && fresh(r.value) && r.value.Valid() && r.value.buffer == []
            && r.value.goals == ToSet(parsed.value.1)
            && r.value.points == PointSet(PointTable(text))
            && r.value.geometry == geometry
            && |visits| == |order|
            && r.value.Facts() == AddAll(EmptyStore, Axioms(order), visits, geometry)
            && (forall p | p in parsed.value.0 :: Has(r.value.Facts(), Deduction(p, {}, "axiom"))))
  {
    order, visits := [], [];
    var points := ScanPoints(text);
    var parsed := ParseString(text, points);
    if parsed.Err? {
      return Err(ParseFailed(parsed.error)), order, visits;
    }
    r, order, visits := NewProblem(parsed.value.0, parsed.value.1, PointSet(points), geometry);
  }

  // ---------------------------------------------------------------------------
  // `prove`: the bounded solving loop
  // ---------------------------------------------------------------------------

  /** `max_iterations`. */
  const MaxIterations: nat := 3

  /** How `prove` ends. */
  datatype Report =
    | AlreadySolved                            // "Already solved!" before any iteration
    | Ran(iterations: nat, proof: Extraction)  // the loop ran, then `print(problem)`

  /**
   * The process's exit status: `exit(1)` when the goals are unmet, and a raised
   * RuntimeError from a stuck proof extraction ends the process with status 1 too.
   */
  function ExitStatus(r: Report): int {
    match r
    case AlreadySolved => 0
    case Ran(_, proof) => if proof.Proof? || proof.NoGoals? then 0 else 1
  }

  /**
   * One iteration of the loop of `prove`: the Datalog step (whose results are
   * discarded, so it changes nothing), the algebraic search when the problem is
   * still unsolved, and the flush.  `queued` is what the flush adds, in order.
   */
  method Iterate(problem: Problem, ar: Pred -> seq<Deduction>)
    returns (ghost queued: seq<Deduction>, ghost searched: Store, ghost visits: seq<seq<Deduction>>)
    requires problem.Valid()
    modifies problem
    ensures problem.Valid() && problem.buffer == []
    ensures searched.derivations == old(problem.derivations) && searched.order == old(problem.order)
    ensures Extends(old(problem.Facts()), searched) && Extends(old(problem.Facts()), problem.Facts())
    ensures old(problem.IsSolved()) ==> searched == old(problem.Facts()) && queued == old(problem.buffer)
    ensures !old(problem.IsSolved()) ==>
      exists pts | IsListing(pts, problem.points) ::
        queued == old(problem.buffer) + Queue(Candidates(pts), old(problem.derivations).Keys, problem.geometry, ar)
    ensures |visits| == |queued| && Visited(queued, visits, problem.geometry)
    ensures problem.Facts() == AddAll(searched, queued, visits, problem.geometry)
  {
    if !problem.IsSolved() {
      var pts := problem.SearchAr(ar);
    }
    searched := problem.Facts();
    queued := problem.buffer;
    visits := problem.Flush();
    AddAllKeepsInv(searched, queued, visits, problem.geometry);
    ExtendsTransitive(old(problem.Facts()), searched, problem.Facts());
  }

  /**
   * The record of `n` iterations: `counts[k]` and `solved[k]` are the number of known
   * predicates and whether the problem is solved after the first `k` iterations.  The
   * problem starts unsolved, and every iteration but the last found new predicates
   * and left the problem unsolved.
   */
  ghost predicate Trace(counts: seq<nat>, solved: seq<bool>, n: nat) {
    && |counts| == |solved| == n + 1
    && !solved[0]
    && forall k | 0 < k < n :: counts[k - 1] < counts[k] && !solved[k]
  }

  /** Another iteration, entered because the last one grew the predicates and did not solve. */
  lemma {:induction false} TraceSnoc(counts: seq<nat>, solved: seq<bool>, n: nat)
    requires Trace(counts, solved, n) && !solved[n]
    requires n == 0 || counts[n - 1] < counts[n]
    ensures forall c: nat, b: bool :: Trace(counts + [c], solved + [b], n + 1)
  {
  }

  /**
   * Every iteration but the last added at least one predicate, so after `k` such
   * iterations at least `k` predicates are new.
   */
  lemma {:induction false} TraceGrowth(counts: seq<nat>, solved: seq<bool>, n: nat, k: nat)
    requires Trace(counts, solved, n) && k < n
    ensures counts[0] + k <= counts[k]
    decreases k
  {
    if k > 0 {
      TraceGrowth(counts, solved, n, k - 1);
    }
  }

  /** Why the loop stopped after `n >= 1` iterations: the bound, a solution, or no growth. */
  ghost predicate Stopped(counts: seq<nat>, solved: seq<bool>, n: nat)
    requires 1 <= n && |counts| == |solved| == n + 1
  {
    n == MaxIterations || solved[n] || counts[n] <= counts[n - 1]
  }

  /**
   * The `while` loop of `prove`, entered with an unsolved problem: it runs while the
   * last iteration grew the predicates, the problem is unsolved and fewer than
   * `MaxIterations` iterations ran.  `ar(k)` is the algebraic proposal in iteration `k`.
   */
  method Loop(problem: Problem, ar: nat -> (Pred -> seq<Deduction>))
    returns (iterations: nat, ghost counts: seq<nat>, ghost solved: seq<bool>)
    requires problem.Valid() && !problem.IsSolved()
    modifies problem
    ensures problem.Valid() && problem.buffer == []
    ensures Extends(old(problem.Facts()), problem.Facts())
    ensures 1 <= iterations <= MaxIterations && Trace(counts, solved, iterations)
    ensures counts[0] == old(problem.Count())
    ensures counts[iterations] == problem.Count() && solved[iterations] == problem.IsSolved()
    ensures Stopped(counts, solved, iterations)
  {
    var changed := true;
    iterations := 0;
    counts, solved := [problem.Count()], [false];
    while changed && !problem.IsSolved() && iterations < MaxIterations
      invariant problem.Valid()
      invariant iterations <= MaxIterations && Trace(counts, solved, iterations)
      invariant counts[0] == old(problem.Count())
      invariant counts[iterations] == problem.Count() && solved[iterations] == problem.IsSolved()
      invariant iterations == 0 ==> changed
      invariant iterations > 0 ==> (changed <==> counts[iterations - 1] < counts[iterations])
      invariant iterations > 0 ==> problem.buffer == []
      invariant Extends(old(problem.Facts()), problem.Facts())
      decreases MaxIterations - iterations
    {
      TraceSnoc(counts, solved, iterations);
      iterations := iterations + 1;
      var previous := problem.Count();
      ghost var queued, searched, visits := Iterate(problem, ar(iterations));
      changed := problem.Count() > previous;
      counts, solved := counts + [problem.Count()], solved + [problem.IsSolved()];
    }
  }

  /**
   * `prove`: nothing happens to a problem already solved; otherwise the loop runs and
   * the proof is extracted from the final state (`print(problem)`).
   */
  method Prove(problem: Problem, ar: nat -> (Pred -> seq<Deduction>))
    returns (r: Report, ghost counts: seq<nat>, ghost solved: seq<bool>,
             ghost reach: set<Pred>, ghost placed: seq<(Pred, Deduction)>, ghost axioms: nat)
    requires problem.Valid()
    modifies problem
    ensures problem.Valid()
    ensures r.AlreadySolved? <==> old(problem.IsSolved())
    ensures r.AlreadySolved? ==> unchanged(problem)
    ensures Extends(old(problem.Facts()), problem.Facts())
    ensures ExitStatus(r) == 0 <==> problem.IsSolved() && !(r.Ran? && r.proof.Stuck?)
    ensures r.Ran? ==>
      && 1 <= r.iterations <= MaxIterations && Trace(counts, solved, r.iterations)
      && counts[0] == old(problem.Count())
      && counts[r.iterations] == problem.Count() && solved[r.iterations] == problem.IsSolved()
      && Stopped(counts, solved, r.iterations)
      && problem.buffer == []
    ensures r.Ran? ==>
      && (r.proof.Unsolved? <==> !problem.IsSolved())
      && (r.proof.NoGoals? <==> problem.IsSolved() && problem.goals == {})
      && (r.proof.Proof? || r.proof.Stuck? ==>
            IsReach(reach, problem.goals, problem.derivations) && Placed(problem.derivations, reach, placed, axioms))
      && (r.proof.Stuck? ==> r.proof.remaining == problem.goals - Used(placed) && r.proof.remaining != {})
      && (r.proof.Proof? ==> problem.goals <= Used(placed) && Rendered(r.proof.steps, placed, problem.goals))
  {
    counts, solved, reach, placed, axioms := [], [], {}, [], 0;
    if problem.IsSolved() {
      return AlreadySolved, counts, solved, reach, placed, axioms;
    }
    var iterations;
    iterations, counts, solved := Loop(problem, ar);
    var proof;
    proof, reach, placed, axioms := problem.Extract();
    r := Ran(iterations, proof);
  }
}
