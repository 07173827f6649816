/**
 * The proof extractor of `Problem.__str__` (problem.py), on values.
 *
 * Extraction first collects the predicates reachable from the goals through the
 * recorded derivations, then places predicates one at a time: a predicate is placed
 * with the best derivation (lowest rule priority, first in list order among equals)
 * whose parents are all placed already.  A first pass places every reachable
 * predicate that has a derivation without parents; then rounds over all predicates
 * repeat until every goal is placed or a round places nothing.
 *
 * This module holds what the extractor computes, stated on its inputs; the methods
 * of `Problems.Problem` compute it and are proved against it.
 */
module ProofOrder {
  import opened Wrappers
  import opened Relations

  /** `RULE_PRIORITY.get(rule_name, 5)`: lower is preferred. */
  function Priority(rule: string): int {
    if rule == "axiom" then 0
    else if rule == "rfl" then 1
    else if rule == SubRule then 2
    else if rule == "AR" then 10
    else if rule == "sym" then 20
    else 5
  }

  /** Axioms are preferred to everything, then reflexivity, sub-facts, other rules, AR, symmetry. */
  lemma {:induction false} PriorityRanks(other: string)
    requires other !in {"axiom", "rfl", SubRule, "AR", "sym"}
    ensures Priority("axiom") < Priority("rfl") < Priority(SubRule) < Priority(other)
    ensures Priority(other) < Priority("AR") < Priority("sym")
  {
  }

  /**
   * `min([d for d in ds if d.parents <= used], key=priority)`, or None when that list is
   * empty.  Python's `min` keeps the first of several equally good elements.  With
   * `used == {}` this is the axiom pass's choice among the derivations without parents.
   */
  function Pick(ds: seq<Deduction>, used: set<Pred>): Option<Deduction>
    decreases |ds|
  {
    if |ds| == 0 then None
    else
      var n := |ds| - 1;
      var r := Pick(ds[..n], used);
      if ds[n].parents <= used && (r.None? || Priority(ds[n].rule) < Priority(r.value.rule)) then Some(ds[n])
      else r
  }

  /**
   * The choice is a best eligible derivation: there is none exactly when no derivation
   * has all its parents used, and otherwise no eligible derivation has a lower priority.
   */
  lemma {:induction false} PickBest(ds: seq<Deduction>, used: set<Pred>)
    ensures Pick(ds, used).None? <==> forall d | d in ds :: !(d.parents <= used)
    ensures Pick(ds, used).Some? ==> Pick(ds, used).value in ds && Pick(ds, used).value.parents <= used
    ensures Pick(ds, used).Some? ==>
      forall d | d in ds && d.parents <= used :: Priority(Pick(ds, used).value.rule) <= Priority(d.rule)
    decreases |ds|
  {
    if |ds| > 0 {
      var n := |ds| - 1;
      PickBest(ds[..n], used);
      assert ds == ds[..n] + [ds[n]];
    }
  }

  /** Among equally good derivations the first in list order is chosen. */
  lemma {:induction false} PickFirst(ds: seq<Deduction>, used: set<Pred>) returns (k: nat)
    requires Pick(ds, used).Some?
    ensures k < |ds| && ds[k] == Pick(ds, used).value
    ensures forall j | 0 <= j < k && ds[j].parents <= used :: Priority(ds[j].rule) > Priority(ds[k].rule)
    decreases |ds|
  {
    var n := |ds| - 1;
    var r := Pick(ds[..n], used);
    PickBest(ds[..n], used);
    if ds[n].parents <= used && (r.None? || Priority(ds[n].rule) < Priority(r.value.rule)) {
      k := n;
      forall j | 0 <= j < k && ds[j].parents <= used ensures Priority(ds[j].rule) > Priority(ds[k].rule) {
        assert ds[j] in ds[..n];
      }
    } else {
      k := PickFirst(ds[..n], used);
    }
  }

  /** The set of predicates placed so far (`used_predicates`). */
  function Used(placed: seq<(Pred, Deduction)>): (r: set<Pred>)
    ensures forall i | 0 <= i < |placed| :: placed[i].0 in r
    decreases |placed|
  {
    if |placed| == 0 then {}
    else Used(placed[..|placed| - 1]) + {placed[|placed| - 1].0}
  }

  lemma {:induction false} UsedSnoc(placed: seq<(Pred, Deduction)>, x: (Pred, Deduction))
    ensures Used(placed + [x]) == Used(placed) + {x.0}
  {
    assert (placed + [x])[..|placed|] == placed;
  }

  /** Only the placed predicates are used. */
  lemma {:induction false} UsedOnlyPlaced(placed: seq<(Pred, Deduction)>, p: Pred)
    requires p in Used(placed)
    ensures exists i | 0 <= i < |placed| :: placed[i].0 == p
    decreases |placed|
  {
    var n := |placed| - 1;
    if p != placed[n].0 {
      UsedOnlyPlaced(placed[..n], p);
      var i :| 0 <= i < n && placed[..n][i].0 == p;
      assert placed[i].0 == p;
    }
  }

  /** Every derivation of a predicate of `s` has all its parents in `s`. */
  ghost predicate Closed(s: set<Pred>, derivations: map<Pred, seq<Deduction>>) {
    forall p, d | p in s && p in derivations && d in derivations[p] :: d.parents <= s
  }

  /** The smallest set that holds the goals and is closed: `find_reachable_predicates`. */
  ghost predicate IsReach(reach: set<Pred>, goals: set<Pred>, derivations: map<Pred, seq<Deduction>>) {
    && goals <= reach
    && Closed(reach, derivations)
    && forall s: set<Pred> | goals <= s && Closed(s, derivations) :: reach <= s
  }

  /** The reachable set is determined by the goals and the derivations. */
  lemma {:induction false} ReachUnique(r1: set<Pred>, r2: set<Pred>, goals: set<Pred>, derivations: map<Pred, seq<Deduction>>)
    requires IsReach(r1, goals, derivations) && IsReach(r2, goals, derivations)
    ensures r1 == r2
  {
    assert r1 <= r2 && r2 <= r1;
  }

  /** Every predicate named as a parent by some recorded derivation. */
  ghost function Mentioned(derivations: map<Pred, seq<Deduction>>): set<Pred> {
    set p, d, q | p in derivations && d in derivations[p] && q in d.parents :: q
  }

  /**
   * `placed` is a legal placement: no predicate twice, each reachable and recorded, and
   * each with the derivation the extractor picks at its turn.  The first `axioms`
   * entries come from the axiom pass (derivations without parents), the others from
   * the rounds (parents among the predicates placed before).
   */
  ghost predicate Placed(derivations: map<Pred, seq<Deduction>>, reach: set<Pred>,
                         placed: seq<(Pred, Deduction)>, axioms: nat)
  {
    && axioms <= |placed|
    && (forall i, j | 0 <= i < j < |placed| :: placed[i].0 != placed[j].0)
    && forall i | 0 <= i < |placed| ::
         && placed[i].0 in reach
         && placed[i].0 in derivations
         && Pick(derivations[placed[i].0], if i < axioms then {} else Used(placed[..i])) == Some(placed[i].1)
  }

  /** The axiom pass places one more predicate. */
  lemma {:induction false} PlacedSnocAxiom(derivations: map<Pred, seq<Deduction>>, reach: set<Pred>,
                        placed: seq<(Pred, Deduction)>, p: Pred, d: Deduction)
    requires Placed(derivations, reach, placed, |placed|)
    requires p in reach && p in derivations && p !in Used(placed)
    requires Pick(derivations[p], {}) == Some(d)
    ensures Placed(derivations, reach, placed + [(p, d)], |placed| + 1)
  {
    var placed' := placed + [(p, d)];
    forall i | 0 <= i < |placed'|
      ensures Pick(derivations[placed'[i].0], if i < |placed| + 1 then {} else Used(placed'[..i])) == Some(placed'[i].1)
    {
    }
  }

  /** A round places one more predicate. */
  lemma {:induction false} PlacedSnoc(derivations: map<Pred, seq<Deduction>>, reach: set<Pred>,
                   placed: seq<(Pred, Deduction)>, axioms: nat, p: Pred, d: Deduction)
    requires Placed(derivations, reach, placed, axioms)
    requires p in reach && p in derivations && p !in Used(placed)
    requires Pick(derivations[p], Used(placed)) == Some(d)
    ensures Placed(derivations, reach, placed + [(p, d)], axioms)
  {
    var placed' := placed + [(p, d)];
    forall i | 0 <= i < |placed'|
      ensures Pick(derivations[placed'[i].0], if i < axioms then {} else Used(placed'[..i])) == Some(placed'[i].1)
    {
      if i < |placed| {
        assert placed'[..i] == placed[..i];
      } else {
        assert placed'[..i] == placed;
      }
    }
  }

  /**
   * The extracted order is topological: every parent of a placed predicate's chosen
   * derivation was placed before it.
   */
  lemma {:induction false} PlacedParentsFirst(derivations: map<Pred, seq<Deduction>>, reach: set<Pred>,
                                              placed: seq<(Pred, Deduction)>, axioms: nat, i: nat)
    requires Placed(derivations, reach, placed, axioms) && i < |placed|
    ensures placed[i].1 in derivations[placed[i].0]
    ensures forall q | q in placed[i].1.parents :: exists j | 0 <= j < i :: placed[j].0 == q
  {
    PickBest(derivations[placed[i].0], if i < axioms then {} else Used(placed[..i]));
    forall q | q in placed[i].1.parents
      ensures exists j | 0 <= j < i :: placed[j].0 == q
    {
      UsedOnlyPlaced(placed[..i], q);
      var j :| 0 <= j < i && placed[..i][j].0 == q;
      assert placed[j].0 == q;
    }
  }

  /** One line of the printed proof. */
  datatype Step = Step(
    number: nat,        // the step's number, from 1
    fact: Pred,
    via: Deduction,     // the chosen derivation
    caption: string,    // the rule name, blank for "unknown"
    refs: seq<nat>,     // the step numbers of the derivation's parents
    goal: bool)         // printed highlighted

  /** What `__str__` produces. */
  datatype Extraction =
    | Unsolved                       // some goal is not recorded: the empty string
    | NoGoals                        // "No goals specified"
    | Proof(steps: seq<Step>)
    | Stuck(remaining: set<Pred>)    // RuntimeError: these goals could not be placed

  /** `refs` names, each once, the step numbers of exactly the predicates in `parents`. */
  ghost predicate RefsOf(refs: seq<nat>, parents: set<Pred>, placed: seq<(Pred, Deduction)>, i: nat) {
    && NoDups(refs)
    && (forall k | 0 <= k < |refs| :: 1 <= refs[k] <= i && refs[k] <= |placed| && placed[refs[k] - 1].0 in parents)
    && (forall q | q in parents :: exists k | 0 <= k < |refs| :: refs[k] <= |placed| && placed[refs[k] - 1].0 == q)
  }

  /** The step numbered `i + 1` prints the `i`-th placement. */
  ghost predicate StepOk(step: Step, placed: seq<(Pred, Deduction)>, goals: set<Pred>, i: nat)
    requires i < |placed|
  {
    && step.number == i + 1
    && step.fact == placed[i].0
    && step.via == placed[i].1
    && step.caption == (if placed[i].1.rule == "unknown" then "" else placed[i].1.rule)
    && step.goal == (placed[i].0 in goals)
    && RefsOf(step.refs, placed[i].1.parents, placed, i)
  }

  /** `steps` prints `placed`: numbered from 1, parents referenced by number. */
  ghost predicate Rendered(steps: seq<Step>, placed: seq<(Pred, Deduction)>, goals: set<Pred>) {
    && |steps| == |placed|
    && forall i | 0 <= i < |steps| :: StepOk(steps[i], placed, goals, i)
  }

  /**
   * Numbers given by `numbering` (`numbering[pred] = i + 1` over the placement) name the
   * parents: a listing of the parents, mapped through the numbering, is a `RefsOf`.
   */
  lemma {:induction false} RefsFromNumbering(numbering: map<Pred, nat>, placed: seq<(Pred, Deduction)>, i: nat,
                          parents: set<Pred>, ps: seq<Pred>, refs: seq<nat>)
    requires i <= |placed|
    requires forall j | 0 <= j < |placed| :: placed[j].0 in numbering && numbering[placed[j].0] == j + 1
    requires forall q | q in parents :: exists j | 0 <= j < i :: placed[j].0 == q
    requires IsListing(ps, parents) && |refs| == |ps|
    requires forall k | 0 <= k < |ps| :: ps[k] in numbering && refs[k] == numbering[ps[k]]
    ensures RefsOf(refs, parents, placed, i)
  {
    forall k | 0 <= k < |refs|
      ensures 1 <= refs[k] <= i && placed[refs[k] - 1].0 == ps[k]
    {
      assert ps[k] in ps;
      var j :| 0 <= j < i && placed[j].0 == ps[k];
    }
    forall q | q in parents
      ensures exists k | 0 <= k < |refs| :: refs[k] <= |placed| && placed[refs[k] - 1].0 == q
    {
      var k :| 0 <= k < |ps| && ps[k] == q;
      assert placed[refs[k] - 1].0 == q;
    }
  }

  /** Every reachable recorded predicate with a derivation without parents is in `used`. */
  ghost predicate AxiomsPlaced(derivations: map<Pred, seq<Deduction>>, reach: set<Pred>, used: set<Pred>) {
    forall p | p in reach && p in derivations && Pick(derivations[p], {}).Some? :: p in used
  }

  /** No reachable predicate still unplaced has a derivation whose parents are all in `used`. */
  ghost predicate Blocked(derivations: map<Pred, seq<Deduction>>, reach: set<Pred>, used: set<Pred>) {
    forall p | p in reach && p in derivations && p !in used :: Pick(derivations[p], used).None?
  }

  /** The invariant of the axiom pass after the first `i` keys of `order`. */
  ghost predicate AxiomPassInv(derivations: map<Pred, seq<Deduction>>, order: seq<Pred>, reach: set<Pred>,
                               placed: seq<(Pred, Deduction)>, used: set<Pred>, i: nat)
  {
    && i <= |order|
    && used == Used(placed)
    && Placed(derivations, reach, placed, |placed|)
    && (forall p | p in used :: p in reach && p in derivations)
    && (forall k | 0 <= k < i && order[k] in reach && order[k] in derivations
          && Pick(derivations[order[k]], {}).Some? :: order[k] in used)
    && (forall k | i <= k < |order| :: order[k] !in used)
  }

  lemma {:induction false} AxiomPassStep(derivations: map<Pred, seq<Deduction>>, order: seq<Pred>, reach: set<Pred>,
                      placed: seq<(Pred, Deduction)>, used: set<Pred>, i: nat)
    requires NoDups(order) && i < |order| && order[i] in derivations
    requires AxiomPassInv(derivations, order, reach, placed, used, i)
    ensures var p := order[i];
      var b := Pick(derivations[p], {});
      if p in reach && b.Some? then AxiomPassInv(derivations, order, reach, placed + [(p, b.value)], used + {p}, i + 1)
      else AxiomPassInv(derivations, order, reach, placed, used, i + 1)
  {
    var p := order[i];
    var b := Pick(derivations[p], {});
    if p in reach && b.Some? {
      PlacedSnocAxiom(derivations, reach, placed, p, b.value);
      UsedSnoc(placed, (p, b.value));
    }
  }

  /**
   * The invariant of one round after the first `i` keys of `order`, for a round that
   * started from `placed0`.  As long as the round has placed nothing, every key it
   * passed was blocked.
   */
  ghost predicate RoundInv(derivations: map<Pred, seq<Deduction>>, order: seq<Pred>, reach: set<Pred>,
                           placed0: seq<(Pred, Deduction)>, placed: seq<(Pred, Deduction)>,
                           used: set<Pred>, axioms: nat, i: nat)
  {
    && i <= |order|
    && used == Used(placed)
    && Placed(derivations, reach, placed, axioms)
    && placed0 <= placed
    && (forall p | p in used :: p in Used(placed0) || (p in reach && p in derivations))
    && (|placed| == |placed0| ==>
          forall k | 0 <= k < i && order[k] in reach && order[k] in derivations && order[k] !in used ::
            Pick(derivations[order[k]], used).None?)
  }

  lemma {:induction false} RoundStep(derivations: map<Pred, seq<Deduction>>, order: seq<Pred>, reach: set<Pred>,
                  placed0: seq<(Pred, Deduction)>, placed: seq<(Pred, Deduction)>,
                  used: set<Pred>, axioms: nat, i: nat)
    requires i < |order| && order[i] in derivations
    requires RoundInv(derivations, order, reach, placed0, placed, used, axioms, i)
    ensures var p := order[i];
      var b := Pick(derivations[p], used);
      if p in reach && p !in used && b.Some? then
        RoundInv(derivations, order, reach, placed0, placed + [(p, b.value)], used + {p}, axioms, i + 1)
      else RoundInv(derivations, order, reach, placed0, placed, used, axioms, i + 1)
  {
    var p := order[i];
    var b := Pick(derivations[p], used);
    if p in reach && p !in used && b.Some? {
      PlacedSnoc(derivations, reach, placed, axioms, p, b.value);
      UsedSnoc(placed, (p, b.value));
    }
  }

  /**
   * The invariant of the round loop: `placed` extends the axiom pass's placement `ax`,
   * and when the last round placed nothing (`prev == |used|`) everything left is blocked.
   */
  ghost predicate RoundsInv(derivations: map<Pred, seq<Deduction>>, reach: set<Pred>,
                            ax: seq<(Pred, Deduction)>, placed: seq<(Pred, Deduction)>, used: set<Pred>, prev: int)
  {
    && used == Used(placed)
    && Placed(derivations, reach, placed, |ax|)
    && ax <= placed
    && used <= reach * derivations.Keys
    && prev <= |used|
    && (prev == |used| ==> Blocked(derivations, reach, used))
  }

  /** A placement that extends another uses everything the shorter one uses. */
  lemma {:induction false} UsedPrefix(placed0: seq<(Pred, Deduction)>, placed: seq<(Pred, Deduction)>)
    requires placed0 <= placed
    ensures Used(placed0) <= Used(placed)
  {
    forall p | p in Used(placed0)
      ensures p in Used(placed)
    {
      UsedOnlyPlaced(placed0, p);
      var i :| 0 <= i < |placed0| && placed0[i].0 == p;
      assert placed[i].0 == p;
    }
  }

  /** A predicate that no entry of `placed` names is not used. */
  lemma {:induction false} NotUsed(placed: seq<(Pred, Deduction)>, p: Pred)
    requires forall i | 0 <= i < |placed| :: placed[i].0 != p
    ensures p !in Used(placed)
  {
    if p in Used(placed) {
      UsedOnlyPlaced(placed, p);
    }
  }

  /** A round either places something, using up part of the pool, or changes nothing. */
  lemma {:induction false} RoundsStep(derivations: map<Pred, seq<Deduction>>, reach: set<Pred>, ax: seq<(Pred, Deduction)>,
                   placed0: seq<(Pred, Deduction)>, used0: set<Pred>, prev: int,
                   placed: seq<(Pred, Deduction)>, used: set<Pred>)
    requires RoundsInv(derivations, reach, ax, placed0, used0, prev)
    requires used == Used(placed) && Placed(derivations, reach, placed, |ax|) && placed0 <= placed
    requires forall p | p in used :: p in used0 || (p in reach && p in derivations)
    requires |placed| == |placed0| ==> Blocked(derivations, reach, used0)
    ensures RoundsInv(derivations, reach, ax, placed, used, |used0|)
    ensures |placed| == |placed0| ==> used == used0
    ensures |placed| != |placed0| ==> |reach * derivations.Keys - used| < |reach * derivations.Keys - used0|
  {
    var pool := reach * derivations.Keys;
    UsedPrefix(placed0, placed);
    assert used <= pool;
    if |placed| == |placed0| {
      assert placed == placed0;
    } else {
      var p := placed[|placed0|].0;
      forall i | 0 <= i < |placed0|
        ensures placed0[i].0 != p
      {
        assert placed0[i] == placed[i];
      }
      NotUsed(placed0, p);
      assert p in used;
      SmallerSet(used0, used, p);
      SmallerSet(pool - used, pool - used0, p);
    }
  }

  /** A subset that misses an element of the larger set is smaller. */
  lemma {:induction false} SmallerSet<T>(a: set<T>, b: set<T>, x: T)
    requires a <= b && x in b && x !in a
    ensures |a| < |b|
  {
    assert b == a + (b - a);
    assert |b - a| >= 1 by { assert x in b - a; }
  }
}
