/**
 * The text format of a problem (read_in_relations.py).
 *
 * A problem is a `;`-separated list of clauses.  A clause is a predicate name
 * followed by point names, separated by any run of commas and whitespace; a
 * clause starting with `?` is a goal, every other clause a premise.  The
 * predicate name is looked up, ignoring case and surrounding whitespace, in the
 * registry of predicate classes, which also fixes how many points it takes.
 */
module ReadInRelations {
  import opened Wrappers
  import opened Relations

  // ---------------------------------------------------------------------------
  // Characters and string helpers (Python `str` semantics)
  // ---------------------------------------------------------------------------

  /** Python's `str.isspace()`, which is also what `\s` matches in a `str` pattern. */
  predicate IsSpace(c: char) {
    var n := c as int;
    (9 <= n <= 13) || (28 <= n <= 32) || n == 0x85 || n == 0xA0 || n == 0x1680
    || (0x2000 <= n <= 0x200A) || n == 0x2028 || n == 0x2029 || n == 0x202F
    || n == 0x205F || n == 0x3000
  }

  /** The character class `[,\s]` that separates the tokens of a clause. */
  predicate IsTokenSep(c: char) {
    c == ',' || IsSpace(c)
  }

  predicate IsSemicolon(c: char) {
    c == ';'
  }

  predicate Blank(s: string) {
    forall i | 0 <= i < |s| :: IsSpace(s[i])
  }

  /** The index of the first element satisfying `p`, or `|s|` when there is none. */
  function FirstWhere<T>(s: seq<T>, p: T -> bool): (i: nat)
    ensures i <= |s|
    ensures i < |s| ==> p(s[i])
    ensures forall k | 0 <= k < i :: !p(s[k])
  {
    if |s| == 0 || p(s[0]) then 0 else 1 + FirstWhere(s[1..], p)
  }

  /** `str.strip()`: drop leading and trailing whitespace. */
  function Strip(s: string): string
    decreases |s|
  {
    if |s| > 0 && IsSpace(s[0]) then Strip(s[1..])
    else if |s| > 0 && IsSpace(s[|s| - 1]) then Strip(s[..|s| - 1])
    else s
  }

  /** `str.lower()` on one character; letters beyond ASCII are not case-folded here. */
  function LowerChar(c: char): char {
    if 'A' <= c <= 'Z' then (c as int + 32) as char else c
  }

  function Lower(s: string): (r: string)
    ensures |r| == |s|
  {
    seq(|s|, i requires 0 <= i < |s| => LowerChar(s[i]))
  }

  /** `str.split(sep)`: the pieces between single separators, empty pieces kept. */
  function SplitAt(s: string, isSep: char -> bool): seq<string>
    decreases |s|
  {
    var i := FirstWhere(s, isSep);
    if i == |s| then [s] else [s[..i]] + SplitAt(s[i + 1..], isSep)
  }

  /** `sep.join(pieces)`, the inverse of `SplitAt`. */
  function JoinAt(pieces: seq<string>, sep: char): string {
    if |pieces| == 0 then ""
    else if |pieces| == 1 then pieces[0]
    else pieces[0] + [sep] + JoinAt(pieces[1..], sep)
  }

  /** `re.split(r"<class>+", s)`: the pieces between maximal runs of separators. */
  function SplitRuns(s: string, isSep: char -> bool): (parts: seq<string>)
    ensures |parts| >= 1
    decreases |s|
  {
    var i := FirstWhere(s, isSep);
    if i == |s| then [s]
    else
      var j := i + FirstWhere(s[i..], c => !isSep(c));
      [s[..i]] + SplitRuns(s[j..], isSep)
  }

  /** No string in `parts` contains a separator. */
  predicate SepFree(parts: seq<string>, isSep: char -> bool) {
    forall k, j | 0 <= k < |parts| && 0 <= j < |parts[k]| :: !isSep(parts[k][j])
  }

  /** `words[0] + gaps[0] + words[1] + ... + words[n-1]`. */
  function Interleave(words: seq<string>, gaps: seq<string>): string
    requires |words| >= 1 && |gaps| == |words| - 1
  {
    if |words| == 1 then words[0]
    else words[0] + gaps[0] + Interleave(words[1..], gaps[1..])
  }

  /** `[a for a in xs if a != ""]`. */
  function Filled(xs: seq<string>): (r: seq<string>)
    ensures |r| <= |xs|
    ensures forall k | 0 <= k < |r| :: r[k] != "" && r[k] in xs
    ensures forall t | t in xs && t != "" :: t in r
  {
    if |xs| == 0 then []
    else if xs[0] == "" then Filled(xs[1..])
    else [xs[0]] + Filled(xs[1..])
  }

  // ---------------------------------------------------------------------------
  // The predicate registry and instantiation
  // ---------------------------------------------------------------------------

  /** `_normalize_predicate_name`: strip, then lower-case. */
  function Normalize(name: string): string {
    Lower(Strip(name))
  }

  /**
   * `_PREDICATE_REGISTRY`: every predicate class of relations.py under its
   * lower-cased class name, with the number of parameters of its constructor.
   */
  const Registry: map<string, nat> := map[
    "aconst" := 5, "col" := 3, "cong" := 4, "contri1" := 6, "contri2" := 6,
    "cyclic" := 4, "eqangle" := 6, "eqratio" := 8, "inter" := 5, "midp" := 3,
    "para" := 4, "perp" := 4, "sameclock" := 6, "simtri1" := 6, "simtri2" := 6]

  datatype ParseError =
    | NoSegments                                          // ValueError, no clause at all
    | UnknownPredicate(name: string)                      // ValueError, name not registered
    | WrongArity(name: string, expected: nat, got: nat)   // ValueError, point count
    | MissingPoint(point: string)                         // KeyError, first unknown point
    | AconstArguments(name: string)                       // an `aconst` clause: m and n are not numbers

  /** Calls the registered class's constructor on `pts`. */
  function Build(key: string, pts: seq<Point>): (r: Result<Pred, ParseError>)
    requires key in Registry && |pts| == Registry[key]
    ensures r.Err? <==> key == "aconst"
  {
    if key == "col" then Ok(MakeCol(pts[0], pts[1], pts[2]))
    else if key == "perp" then Ok(MakePerp(pts[0], pts[1], pts[2], pts[3]))
    else if key == "cong" then Ok(MakeCong(pts[0], pts[1], pts[2], pts[3]))
    else if key == "simtri1" then Ok(MakeSimtri1(pts[0], pts[1], pts[2], pts[3], pts[4], pts[5]))
    else if key == "simtri2" then Ok(MakeSimtri2(pts[0], pts[1], pts[2], pts[3], pts[4], pts[5]))
    else if key == "eqangle" then Ok(MakeEqangle(pts[0], pts[1], pts[2], pts[3], pts[4], pts[5]))
    else if key == "para" then Ok(MakePara(pts[0], pts[1], pts[2], pts[3]))
    else if key == "contri1" then Ok(MakeContri1(pts[0], pts[1], pts[2], pts[3], pts[4], pts[5]))
    else if key == "contri2" then Ok(MakeContri2(pts[0], pts[1], pts[2], pts[3], pts[4], pts[5]))
    else if key == "cyclic" then Ok(MakeCyclic(pts[0], pts[1], pts[2], pts[3]))
    else if key == "sameclock" then Ok(MakeSameclock(pts[0], pts[1], pts[2], pts[3], pts[4], pts[5]))
    else if key == "midp" then Ok(MakeMidp(pts[0], pts[1], pts[2]))
    else if key == "eqratio" then
      Ok(MakeEqratio(pts[0], pts[1], pts[2], pts[3], pts[4], pts[5], pts[6], pts[7]))
    else if key == "inter" then Ok(MakeInter(pts[0], pts[1], pts[2], pts[3], pts[4]))
    else Err(AconstArguments(key))
  }

  /** The registry maps every name to the class of that name. */
  lemma {:induction false} BuildClass(key: string, pts: seq<Point>)
    requires key in Registry && |pts| == Registry[key]
    ensures Build(key, pts).Ok? ==> ClassName(Build(key, pts).value) == key
  {
    if key != "aconst" {
      if |pts| <= 4 {
        BuildClassFew(key, pts);
      } else {
        BuildClassMany(key, pts);
      }
    }
  }

  lemma {:induction false} BuildClassFew(key: string, pts: seq<Point>)
    requires key in Registry && key != "aconst" && |pts| == Registry[key] && |pts| <= 4
    ensures ClassName(Build(key, pts).value) == key
  {
  }

  lemma {:induction false} BuildClassMany(key: string, pts: seq<Point>)
    requires key in Registry && key != "aconst" && |pts| == Registry[key] && |pts| > 4
    ensures ClassName(Build(key, pts).value) == key
  {
  }

  /** The point named `sym`, with the coordinates the table gives it. */
  function PointOf(sym: string, points: map<string, (real, real)>): Point
    requires sym in points
  {
    Point(points[sym].0, points[sym].1, sym)
  }

  /** Looks every name up in order; the first unknown one is the error. */
  function Lookup(syms: seq<string>, points: map<string, (real, real)>): Result<seq<Point>, ParseError> {
    var k := FirstWhere(syms, s => s !in points);
    if k < |syms| then Err(MissingPoint(syms[k]))
    else Ok(seq(|syms|, i requires 0 <= i < |syms| => PointOf(syms[i], points)))
  }

  /** `_instantiate_predicate`. */
  function Instantiate(name: string, args: seq<string>, points: map<string, (real, real)>): Result<Pred, ParseError> {
    var key := Normalize(name);
    if key !in Registry then Err(UnknownPredicate(name))
    else
      var argList := Filled(args);
      if |argList| != Registry[key] then Err(WrongArity(name, Registry[key], |argList|))
      else
        var pts :- Lookup(argList, points);
        Build(key, pts)
  }

  // ---------------------------------------------------------------------------
  // Clauses and problems (`parse_string`)
  // ---------------------------------------------------------------------------

  /** `text.split(";")`. */
  function Pieces(text: string): seq<string> {
    SplitAt(text, IsSemicolon)
  }

  /** The clauses: stripped `;`-pieces that are not blank. */
  function Segments(text: string): seq<string> {
    NonBlank(Pieces(text))
  }

  /** `[seg.strip() for seg in pieces if seg.strip() != ""]`. */
  function NonBlank(pieces: seq<string>): seq<string> {
    if |pieces| == 0 then []
    else if Strip(pieces[0]) == "" then NonBlank(pieces[1..])
    else [Strip(pieces[0])] + NonBlank(pieces[1..])
  }

  predicate IsGoalClause(raw: string) {
    |raw| > 0 && raw[0] == '?'
  }

  /** One clause: whether it is a goal, and the predicate it names. */
  function ParseSegment(raw: string, points: map<string, (real, real)>): Result<(bool, Pred), ParseError> {
    var isGoal := IsGoalClause(raw);
    var clause := if isGoal then Strip(raw[1..]) else Strip(raw);
    var parts := SplitRuns(clause, IsTokenSep);
    var p :- Instantiate(parts[0], parts[1..], points);
    Ok((isGoal, p))
  }

  /** What each clause parses to, clause by clause. */
  function Outcomes(segs: seq<string>, points: map<string, (real, real)>): (outs: seq<Result<(bool, Pred), ParseError>>)
    ensures |outs| == |segs|
  {
    seq(|segs|, k requires 0 <= k < |segs| => ParseSegment(segs[k], points))
  }

  /** Clause outcomes gathered in order into premises and goals; the first error wins. */
  function Collect(outs: seq<Result<(bool, Pred), ParseError>>): Result<(seq<Pred>, seq<Pred>), ParseError> {
    if |outs| == 0 then Ok(([], []))
    else
      var (premises, goals) :- Collect(outs[..|outs| - 1]);
      var (isGoal, p) :- outs[|outs| - 1];
      if isGoal then Ok((premises, goals + [p])) else Ok((premises + [p], goals))
  }

  /** The premises and goals of the clauses, each list in clause order. */
  function ParseAll(segs: seq<string>, points: map<string, (real, real)>): Result<(seq<Pred>, seq<Pred>), ParseError> {
    Collect(Outcomes(segs, points))
  }

  /** `parse_string` as a function. */
  function ParseProblem(text: string, points: map<string, (real, real)>): Result<(seq<Pred>, seq<Pred>), ParseError> {
    var segs := Segments(text);
    if |segs| == 0 then Err(NoSegments) else ParseAll(segs, points)
  }

  /** `parse_string`: one pass over the clauses, appending to the premise or goal list. */
  method ParseString(text: string, points: map<string, (real, real)>) returns (r: Result<(seq<Pred>, seq<Pred>), ParseError>)
    ensures r == ParseProblem(text, points)
  {
    var segments := Segments(text);
    if |segments| == 0 {
      return Err(NoSegments);
    }
    ghost var outs := Outcomes(segments, points);
    var premises: seq<Pred>, goals: seq<Pred> := [], [];
    var i := 0;
    while i < |segments|
      invariant 0 <= i <= |segments|
      invariant Collect(outs[..i]) == Ok((premises, goals))
    {
      var clause := ParseSegment(segments[i], points);
      assert clause == outs[i];
      CollectStep(outs, i, premises, goals);
      if clause.Err? {
        return Err(clause.error);
      }
      var (isGoal, p) := clause.value;
      if isGoal {
        goals := goals + [p];
      } else {
        premises := premises + [p];
      }
      i := i + 1;
    }
    assert outs[..i] == outs;
    return Ok((premises, goals));
  }

  /** One more clause of the loop in `parse_string`: an error ends the parse, a predicate is appended. */
  lemma {:induction false} CollectStep(outs: seq<Result<(bool, Pred), ParseError>>, i: nat,
                                       premises: seq<Pred>, goals: seq<Pred>)
    requires i < |outs| && Collect(outs[..i]) == Ok((premises, goals))
    ensures outs[i].Err? ==> Collect(outs) == Err(outs[i].error)
    ensures outs[i].Ok? ==>
      Collect(outs[..i + 1]) == if outs[i].value.0 then Ok((premises, goals + [outs[i].value.1]))
                                else Ok((premises + [outs[i].value.1], goals))
  {
    var prefix := outs[..i + 1];
    assert prefix[..i] == outs[..i] && prefix[i] == outs[i];
    if outs[i].Err? {
      CollectAppend(prefix, outs[i + 1..]);
      assert prefix + outs[i + 1..] == outs;
    }
  }

  // ---------------------------------------------------------------------------
  // Properties of the string helpers
  // ---------------------------------------------------------------------------

  /** `SplitAt` loses nothing: joining its pieces with the separator gives the text back. */
  lemma {:induction false} SplitAtJoin(s: string, isSep: char -> bool, sep: char)
    requires forall c :: isSep(c) <==> c == sep
    ensures JoinAt(SplitAt(s, isSep), sep) == s
    decreases |s|
  {
    var i := FirstWhere(s, isSep);
    if i < |s| {
      var tail := s[i + 1..];
      SplitAtJoin(tail, isSep, sep);
      var rest := SplitAt(tail, isSep);
      var ps := [s[..i]] + rest;
      assert SplitAt(s, isSep) == ps;
      assert |rest| >= 1 by {
        var k := FirstWhere(tail, isSep);
        assert rest == if k == |tail| then [tail] else [tail[..k]] + SplitAt(tail[k + 1..], isSep);
      }
      assert ps[0] == s[..i] && ps[1..] == rest;
      assert JoinAt(ps, sep) == s[..i] + [sep] + JoinAt(rest, sep);
      assert s[i] == sep;
      assert s == s[..i] + [sep] + tail;
    }
  }

  /** The `;`-pieces of a problem, joined back with `;`, are the problem text. */
  lemma {:induction false} PiecesJoin(text: string)
    ensures JoinAt(Pieces(text), ';') == text
    ensures forall k, j | 0 <= k < |Pieces(text)| && 0 <= j < |Pieces(text)[k]| :: Pieces(text)[k][j] != ';'
  {
    SplitAtJoin(text, IsSemicolon, ';');
    SplitAtPieces(text, IsSemicolon);
  }

  /** No piece of `SplitAt` contains a separator. */
  lemma {:induction false} SplitAtPieces(s: string, isSep: char -> bool)
    ensures SepFree(SplitAt(s, isSep), isSep)
    decreases |s|
  {
    var i := FirstWhere(s, isSep);
    if i < |s| {
      SplitAtPieces(s[i + 1..], isSep);
    }
  }

  /** No token of `SplitRuns` contains a separator, and only the first and last can be empty. */
  lemma {:induction false} SplitRunsPieces(s: string, isSep: char -> bool)
    ensures SepFree(SplitRuns(s, isSep), isSep)
    ensures forall k | 0 < k < |SplitRuns(s, isSep)| - 1 :: SplitRuns(s, isSep)[k] != ""
    decreases |s|
  {
    var i := FirstWhere(s, isSep);
    if i < |s| {
      var j := i + FirstWhere(s[i..], c => !isSep(c));
      var rest := SplitRuns(s[j..], isSep);
      SplitRunsPieces(s[j..], isSep);
      var parts := SplitRuns(s, isSep);
      assert parts == [s[..i]] + rest;
      forall k, m | 0 <= k < |parts| && 0 <= m < |parts[k]|
        ensures !isSep(parts[k][m])
      {
        if k > 0 {
          assert parts[k][m] == rest[k - 1][m];
        } else {
          assert parts[0][m] == s[m];
        }
      }
      if j < |s| {
        var t := s[j..];
        assert !isSep(t[0]);
        var i' := FirstWhere(t, isSep);
        assert i' > 0;
        if i' < |t| {
          assert rest[0] == t[..i'];
        } else {
          assert rest[0] == t;
        }
      } else {
        assert s[j..] == "";
        assert |rest| == 1;
      }
      forall k | 0 < k < |parts| - 1
        ensures parts[k] != ""
      {
        assert parts[k] == rest[k - 1];
      }
    }
  }

  /**
   * Any run of separators splits tokens the same way: `SplitRuns` takes apart
   * whatever interleaving of separator-free words with separator runs it is given.
   */
  lemma {:induction false} SplitRunsInterleave(words: seq<string>, gaps: seq<string>, isSep: char -> bool)
    requires |words| >= 1 && |gaps| == |words| - 1
    requires SepFree(words, isSep)
    requires forall k | 1 <= k < |words| :: words[k] != ""
    requires forall k | 0 <= k < |gaps| :: gaps[k] != "" && forall j | 0 <= j < |gaps[k]| :: isSep(gaps[k][j])
    ensures SplitRuns(Interleave(words, gaps), isSep) == words
    decreases |words|
  {
    var s := Interleave(words, gaps);
    if |words| == 1 {
      assert FirstWhere(s, isSep) == |s|;
    } else {
      var rest := Interleave(words[1..], gaps[1..]);
      assert rest[0] == words[1][0] by {
        if |words| > 2 {
          assert rest == words[1] + gaps[1] + Interleave(words[2..], gaps[2..]);
        }
      }
      assert !isSep(words[1][0]);
      SplitRunsCons(words[0], gaps[0], rest, isSep);
      SplitRunsInterleave(words[1..], gaps[1..], isSep);
      assert words == [words[0]] + words[1..];
    }
  }

  /** A separator-free word, then a run of separators, then a word start: the word is the first token. */
  lemma {:induction false} SplitRunsCons(w: string, g: string, rest: string, isSep: char -> bool)
    requires forall j | 0 <= j < |w| :: !isSep(w[j])
    requires g != "" && forall j | 0 <= j < |g| :: isSep(g[j])
    requires rest != "" && !isSep(rest[0])
    ensures SplitRuns(w + g + rest, isSep) == [w] + SplitRuns(rest, isSep)
  {
    var s := w + g + rest;
    var i := FirstWhere(s, isSep);
    assert s[|w|] == g[0];
    assert forall k | 0 <= k < |w| :: s[k] == w[k];
    assert i == |w|;
    var t := s[i..];
    assert t == g + rest;
    var run := FirstWhere(t, c => !isSep(c));
    assert forall k | 0 <= k < |g| :: t[k] == g[k];
    assert t[|g|] == rest[0];
    assert run == |g|;
    assert s[i + run..] == rest;
    assert s[..i] == w;
  }

  /** `Filled` keeps a list of non-empty strings as it is. */
  lemma {:induction false} FilledKeeps(xs: seq<string>)
    requires forall k | 0 <= k < |xs| :: xs[k] != ""
    ensures Filled(xs) == xs
  {
    if |xs| > 0 {
      FilledKeeps(xs[1..]);
    }
  }

  /** A stripped string neither starts nor ends with whitespace. */
  lemma {:induction false} StripEnds(s: string)
    ensures var t := Strip(s); |t| > 0 ==> !IsSpace(t[0]) && !IsSpace(t[|t| - 1])
    ensures |Strip(s)| <= |s|
    decreases |s|
  {
    if |s| > 0 && IsSpace(s[0]) {
      StripEnds(s[1..]);
    } else if |s| > 0 && IsSpace(s[|s| - 1]) {
      StripEnds(s[..|s| - 1]);
    }
  }

  /** A string with no whitespace at either end is its own strip. */
  lemma {:induction false} StripKeeps(s: string)
    requires |s| > 0 ==> !IsSpace(s[0]) && !IsSpace(s[|s| - 1])
    ensures Strip(s) == s
  {
  }

  /** Stripping leaves nothing exactly when the string is all whitespace. */
  lemma {:induction false} StripBlank(s: string)
    ensures Strip(s) == "" <==> Blank(s)
    decreases |s|
  {
    if |s| > 0 && IsSpace(s[0]) {
      StripBlank(s[1..]);
      assert Blank(s) <==> Blank(s[1..]) by {
        if Blank(s[1..]) {
          assert forall i | 1 <= i < |s| :: s[i] == s[1..][i - 1];
        }
      }
    } else if |s| > 0 && IsSpace(s[|s| - 1]) {
      StripBlank(s[..|s| - 1]);
      assert !IsSpace(s[..|s| - 1][0]);
    } else if |s| > 0 {
      assert !IsSpace(s[0]);
    }
  }

  /** Whitespace around a string does not change its strip. */
  lemma {:induction false} StripPadding(front: string, s: string, back: string)
    requires Blank(front) && Blank(back)
    ensures Strip(front + s + back) == Strip(s)
    decreases |front| + |s| + |back|
  {
    var t := front + s + back;
    if |front| > 0 {
      assert t[0] == front[0];
      assert t[1..] == front[1..] + s + back;
      StripPadding(front[1..], s, back);
    } else if |s| > 0 && IsSpace(s[0]) {
      assert t == s + back && t[0] == s[0];
      assert t[1..] == "" + s[1..] + back;
      StripPadding("", s[1..], back);
      assert Strip(s) == Strip(s[1..]);
      assert s[1..] == "" + s[1..] + "";
      StripPadding("", s[1..], "");
    } else if |s| == 0 {
      assert t == back;
      StripBlank(back);
      StripBlank(s);
    } else if |back| > 0 {
      assert t == s + back && t[|t| - 1] == back[|back| - 1];
      if |s| > 0 {
        assert t[0] == s[0];
      }
      assert t[..|t| - 1] == "" + s + back[..|back| - 1];
      StripPadding("", s, back[..|back| - 1]);
    } else {
      assert t == s;
    }
  }

  /** Two strings that agree up to ASCII case are stripped at the same places. */
  lemma {:induction false} StripCaseless(s: string, t: string)
    requires |s| == |t| && forall i | 0 <= i < |s| :: LowerChar(s[i]) == LowerChar(t[i])
    ensures |Strip(s)| == |Strip(t)|
    ensures forall i | 0 <= i < |Strip(s)| :: LowerChar(Strip(s)[i]) == LowerChar(Strip(t)[i])
    decreases |s|
  {
    assert forall i | 0 <= i < |s| :: IsSpace(s[i]) <==> IsSpace(t[i]);
    if |s| > 0 && IsSpace(s[0]) {
      StripCaseless(s[1..], t[1..]);
    } else if |s| > 0 && IsSpace(s[|s| - 1]) {
      StripCaseless(s[..|s| - 1], t[..|t| - 1]);
    }
  }

  /** Predicate names are compared ignoring ASCII case. */
  lemma {:induction false} NormalizeCaseless(s: string, t: string)
    requires |s| == |t| && forall i | 0 <= i < |s| :: LowerChar(s[i]) == LowerChar(t[i])
    ensures Normalize(s) == Normalize(t)
  {
    StripCaseless(s, t);
  }

  /** Predicate names are compared ignoring the whitespace around them. */
  lemma {:induction false} NormalizePadding(front: string, s: string, back: string)
    requires Blank(front) && Blank(back)
    ensures Normalize(front + s + back) == Normalize(s)
  {
    StripPadding(front, s, back);
  }

  // ---------------------------------------------------------------------------
  // Properties of instantiation and parsing
  // ---------------------------------------------------------------------------

  /** The point list is looked up exactly when every name is in the table, and then names match. */
  lemma {:induction false} LookupOutcome(syms: seq<string>, points: map<string, (real, real)>)
    ensures Lookup(syms, points).Ok? <==> forall k | 0 <= k < |syms| :: syms[k] in points
    ensures Lookup(syms, points).Ok? ==>
      |Lookup(syms, points).value| == |syms| &&
      forall k | 0 <= k < |syms| :: Lookup(syms, points).value[k] == PointOf(syms[k], points)
    ensures Lookup(syms, points).Err? ==>
      exists k | 0 <= k < |syms| :: syms[k] !in points && Lookup(syms, points).error == MissingPoint(syms[k])
        && forall j | 0 <= j < k :: syms[j] in points
  {
    var k := FirstWhere(syms, s => s !in points);
    if k < |syms| {
      assert syms[k] !in points;
    }
  }

  /**
   * A clause names a predicate exactly when its name is registered (up to case and
   * whitespace), it has the right number of non-empty point names, every one of them
   * is in the table, and it is not `aconst`; the result is then of that class.
   * Which error a failing clause raises, and in which order the checks run, is
   * InstantiateErrors.
   */
  lemma {:induction false} InstantiateOutcome(name: string, args: seq<string>, points: map<string, (real, real)>)
    ensures var r := Instantiate(name, args, points); var key := Normalize(name);
      r.Ok? <==>
        key in Registry && key != "aconst" && |Filled(args)| == Registry[key] &&
        forall a | a in args && a != "" :: a in points
    ensures var r := Instantiate(name, args, points);
      r.Ok? ==> ClassName(r.value) == Normalize(name)
  {
    var key := Normalize(name);
    if key in Registry && |Filled(args)| == Registry[key] {
      LookupOutcome(Filled(args), points);
      if Lookup(Filled(args), points).Ok? {
        BuildClass(key, Lookup(Filled(args), points).value);
      }
    }
  }

  /**
   * The errors of `_instantiate_predicate`, checked in this order: an unregistered name,
   * then the wrong number of points, then the first point name missing from the table,
   * and last the `aconst` clause whose numbers cannot be built.
   */
  lemma {:induction false} InstantiateErrors(name: string, args: seq<string>, points: map<string, (real, real)>)
    ensures var r := Instantiate(name, args, points); var key := Normalize(name);
      key !in Registry ==> r == Err(UnknownPredicate(name))
    ensures var r := Instantiate(name, args, points); var key := Normalize(name);
      key in Registry && |Filled(args)| != Registry[key] ==>
        r == Err(WrongArity(name, Registry[key], |Filled(args)|))
    ensures var r := Instantiate(name, args, points); var key := Normalize(name); var syms := Filled(args);
      key in Registry && |syms| == Registry[key] && (exists a | a in syms :: a !in points) ==>
        exists k | 0 <= k < |syms| :: syms[k] !in points && r == Err(MissingPoint(syms[k]))
          && forall j | 0 <= j < k :: syms[j] in points
    ensures var r := Instantiate(name, args, points); var key := Normalize(name); var syms := Filled(args);
      key == "aconst" && |syms| == Registry[key] && (forall a | a in syms :: a in points) ==>
        r.Err? && r.error.AconstArguments?
  {
    var key := Normalize(name);
    var syms := Filled(args);
    if key in Registry && |syms| == Registry[key] {
      LookupOutcome(syms, points);
      if exists a | a in syms :: a !in points {
        var a :| a in syms && a !in points;
        assert Lookup(syms, points).Err?;
      }
    }
  }

  /** Clauses split at any run of commas and whitespace: the layout between tokens does not matter. */
  lemma {:induction false} ParseSegmentTokens(goal: bool, words: seq<string>, gaps: seq<string>, points: map<string, (real, real)>)
    requires |words| >= 1 && |gaps| == |words| - 1
    requires SepFree(words, IsTokenSep)
    requires forall k | 0 <= k < |words| :: words[k] != ""
    requires forall k | 0 <= k < |gaps| :: gaps[k] != "" && forall j | 0 <= j < |gaps[k]| :: IsTokenSep(gaps[k][j])
    requires words[0][0] != '?'
    ensures var raw := (if goal then "?" else "") + Interleave(words, gaps);
      ParseSegment(raw, points) == (
        match Instantiate(words[0], words[1..], points)
        case Ok(p) => Ok((goal, p))
        case Err(e) => Err(e))
  {
    var clause := Interleave(words, gaps);
    var raw := (if goal then "?" else "") + clause;
    InterleaveEnds(words, gaps);
    StripKeeps(clause);
    if goal {
      assert raw[1..] == clause;
    } else {
      assert raw == clause;
    }
    SplitRunsInterleave(words, gaps, IsTokenSep);
  }

  /** An interleaving of non-empty words starts with the first word's first character and ends with the last word's last. */
  lemma {:induction false} InterleaveEnds(words: seq<string>, gaps: seq<string>)
    requires |words| >= 1 && |gaps| == |words| - 1
    requires forall k | 0 <= k < |words| :: words[k] != ""
    ensures var s := Interleave(words, gaps);
      |s| > 0 && s[0] == words[0][0] && s[|s| - 1] == words[|words| - 1][|words[|words| - 1]| - 1]
    decreases |words|
  {
    if |words| > 1 {
      InterleaveEnds(words[1..], gaps[1..]);
    }
  }

  /** The point names a predicate prints with. */
  function NamesOf(pts: seq<Point>): (names: seq<string>)
    ensures |names| == |pts| && forall k | 0 <= k < |pts| :: names[k] == pts[k].name
  {
    seq(|pts|, k requires 0 <= k < |pts| => pts[k].name)
  }

  /** `" ".join(...)` of the names is the interleaving of the names with single spaces. */
  lemma {:induction false} NamesInterleave(pts: seq<Point>)
    requires |pts| >= 1
    ensures Names(pts) == Interleave(NamesOf(pts), seq(|pts| - 1, _ => " "))
    decreases |pts|
  {
    if |pts| > 1 {
      NamesInterleave(pts[1..]);
      assert NamesOf(pts[1..]) == NamesOf(pts)[1..];
      assert seq(|pts| - 2, _ => " ") == seq(|pts| - 1, _ => " ")[1..];
    }
  }

  /** Registry keys are plain lower-case words. */
  lemma {:induction false} RegistryWord(key: string)
    requires key in Registry
    ensures key != "" && key[0] != '?'
    ensures forall j | 0 <= j < |key| :: !IsTokenSep(key[j])
    ensures Normalize(key) == key
  {
    assert forall j | 0 <= j < |key| :: 'a' <= key[j] <= 'z' || '0' <= key[j] <= '9';
    StripKeeps(key);
    assert Lower(key) == key;
  }

  /** A registered name applied to the names of points found in the table builds that class from those points. */
  lemma {:induction false} InstantiateNames(key: string, pts: seq<Point>, points: map<string, (real, real)>)
    requires key in Registry && |pts| == Registry[key]
    requires forall k | 0 <= k < |pts| :: pts[k].name != ""
    requires forall k | 0 <= k < |pts| :: pts[k].name in points && PointOf(pts[k].name, points) == pts[k]
    ensures Instantiate(key, NamesOf(pts), points) == Build(key, pts)
  {
    var names := NamesOf(pts);
    RegistryWord(key);
    FilledKeeps(names);
    LookupOutcome(names, points);
    assert Lookup(names, points).value == pts;
  }

  /**
   * Reading back what a predicate prints: a clause `Show(key, pts)`, whose point
   * names are plain words found in the table with the points' coordinates, parses
   * to the predicate the registered class builds from those points.
   */
  lemma {:induction false} ShowRoundTrip(goal: bool, key: string, pts: seq<Point>, points: map<string, (real, real)>)
    requires key in Registry && key != "aconst" && |pts| == Registry[key]
    requires forall k | 0 <= k < |pts| :: pts[k].name != ""
    requires forall k, j | 0 <= k < |pts| && 0 <= j < |pts[k].name| :: !IsTokenSep(pts[k].name[j])
    requires forall k | 0 <= k < |pts| :: pts[k].name in points && PointOf(pts[k].name, points) == pts[k]
    ensures ParseSegment((if goal then "?" else "") + Show(key, pts), points) == Ok((goal, Build(key, pts).value))
  {
    var names := NamesOf(pts);
    var words := [key] + names;
    var gaps := seq(|pts|, _ => " ");
    NamesInterleave(pts);
    assert Show(key, pts) == Interleave(words, gaps) by {
      assert words[1..] == names && gaps[1..] == seq(|pts| - 1, _ => " ");
    }
    RegistryWord(key);
    ParseSegmentTokens(goal, words, gaps, points);
    assert words[0] == key && words[1..] == names;
    InstantiateNames(key, pts, points);
  }

  /** Clauses are stripped, never blank, and there are none exactly when every `;`-piece is blank. */
  lemma {:induction false} NonBlankOutcome(pieces: seq<string>)
    ensures NonBlank(pieces) == [] <==> forall k | 0 <= k < |pieces| :: Blank(pieces[k])
    ensures forall k | 0 <= k < |NonBlank(pieces)| :: NonBlank(pieces)[k] != "" && exists j | 0 <= j < |pieces| :: NonBlank(pieces)[k] == Strip(pieces[j])
  {
    if |pieces| > 0 {
      NonBlankOutcome(pieces[1..]);
      StripBlank(pieces[0]);
      var r := NonBlank(pieces);
      var rest := NonBlank(pieces[1..]);
      forall k | 0 <= k < |r|
        ensures exists j | 0 <= j < |pieces| :: r[k] == Strip(pieces[j])
      {
        if Strip(pieces[0]) == "" {
          var j :| 0 <= j < |pieces[1..]| && r[k] == Strip(pieces[1..][j]);
          assert r[k] == Strip(pieces[j + 1]);
        } else if k == 0 {
          assert r[0] == Strip(pieces[0]);
        } else {
          var j :| 0 <= j < |pieces[1..]| && r[k] == rest[k - 1] && rest[k - 1] == Strip(pieces[1..][j]);
          assert r[k] == Strip(pieces[j + 1]);
        }
      }
      if forall k | 0 <= k < |pieces[1..]| :: Blank(pieces[1..][k]) {
        assert forall k | 1 <= k < |pieces| :: pieces[k] == pieces[1..][k - 1];
      }
    }
  }

  /** A problem with no clause is the `NoSegments` error, and only such a problem is. */
  lemma {:induction false} NoSegmentsExactly(text: string, points: map<string, (real, real)>)
    ensures ParseProblem(text, points) == Err(NoSegments) <==>
      forall k | 0 <= k < |Pieces(text)| :: Blank(Pieces(text)[k])
  {
    var pieces := Pieces(text);
    NonBlankOutcome(pieces);
    var segs := Segments(text);
    assert segs == NonBlank(pieces);
    if |segs| > 0 {
      var outs := Outcomes(segs, points);
      CollectOutcome(outs);
      if Collect(outs).Err? {
        var k :| 0 <= k < |outs| && outs[k].Err? && Collect(outs).error == outs[k].error;
        ClauseErrors(segs[k], points);
      }
      assert NonBlank(pieces) != [];
    }
  }

  /** A clause never fails with `NoSegments`: its errors are about its name or its points. */
  lemma {:induction false} ClauseErrors(raw: string, points: map<string, (real, real)>)
    ensures ParseSegment(raw, points).Err? ==> ParseSegment(raw, points).error != NoSegments
  {
    var isGoal := IsGoalClause(raw);
    var clause := if isGoal then Strip(raw[1..]) else Strip(raw);
    var parts := SplitRuns(clause, IsTokenSep);
    var name, args := parts[0], parts[1..];
    if Normalize(name) in Registry && |Filled(args)| == Registry[Normalize(name)] {
      LookupOutcome(Filled(args), points);
    }
  }

  /**
   * Gathering distributes over concatenation: the premises and goals of `a + b`
   * are those of `a` followed by those of `b`, and an error in `a` takes
   * precedence over one in `b`.
   */
  lemma {:induction false} CollectAppend(a: seq<Result<(bool, Pred), ParseError>>, b: seq<Result<(bool, Pred), ParseError>>)
    ensures Collect(a + b) == (
      match Collect(a)
      case Err(e) => Err(e)
      case Ok((p1, g1)) =>
        match Collect(b)
        case Err(e) => Err(e)
        case Ok((p2, g2)) => Ok((p1 + p2, g1 + g2)))
    decreases |b|
  {
    if |b| == 0 {
      assert a + b == a;
      if Collect(a).Ok? {
        var (p1, g1) := Collect(a).value;
        assert p1 + [] == p1 && g1 + [] == g1;
      }
    } else {
      var b0 := b[..|b| - 1];
      assert (a + b)[..|a + b| - 1] == a + b0;
      assert (a + b)[|a + b| - 1] == b[|b| - 1];
      CollectAppend(a, b0);
      match Collect(a) {
        case Err(e) =>
        case Ok((p1, g1)) =>
          match Collect(b0) {
            case Err(e) =>
            case Ok((p2, g2)) =>
              match b[|b| - 1] {
                case Err(e) =>
                case Ok((isGoal, p)) =>
                  assert p1 + (p2 + [p]) == p1 + p2 + [p];
                  assert g1 + (g2 + [p]) == g1 + g2 + [p];
              }
          }
      }
    }
  }

  /**
   * All clauses parse exactly when each one does, every clause then yields one
   * premise or one goal, and otherwise the error is that of the first failing clause.
   */
  lemma {:induction false} CollectOutcome(outs: seq<Result<(bool, Pred), ParseError>>)
    ensures Collect(outs).Ok? <==> forall k | 0 <= k < |outs| :: outs[k].Ok?
    ensures Collect(outs).Ok? ==> |Collect(outs).value.0| + |Collect(outs).value.1| == |outs|
    ensures Collect(outs).Err? ==>
      exists k | 0 <= k < |outs| :: outs[k].Err? && Collect(outs).error == outs[k].error &&
        forall j | 0 <= j < k :: outs[j].Ok?
  {
    if |outs| > 0 {
      var init := outs[..|outs| - 1];
      CollectOutcome(init);
      assert forall k | 0 <= k < |init| :: init[k] == outs[k];
      if Collect(init).Err? {
        var k :| 0 <= k < |init| && init[k].Err? && Collect(init).error == init[k].error &&
          forall j | 0 <= j < k :: init[j].Ok?;
        assert outs[k] == init[k];
      }
    }
  }

  /** Parsing distributes over concatenation of clause lists. */
  lemma {:induction false} ParseAllAppend(a: seq<string>, b: seq<string>, points: map<string, (real, real)>)
    ensures ParseAll(a + b, points) == (
      match ParseAll(a, points)
      case Err(e) => Err(e)
      case Ok((p1, g1)) =>
        match ParseAll(b, points)
        case Err(e) => Err(e)
        case Ok((p2, g2)) => Ok((p1 + p2, g1 + g2)))
  {
    var oa, ob, oab := Outcomes(a, points), Outcomes(b, points), Outcomes(a + b, points);
    forall k | 0 <= k < |a + b|
      ensures oab[k] == (oa + ob)[k]
    {
      if k < |a| {
        assert (a + b)[k] == a[k];
      } else {
        assert (a + b)[k] == b[k - |a|];
      }
    }
    assert oab == oa + ob;
    CollectAppend(oa, ob);
  }

  /** A single clause is a goal exactly when it starts with `?`; otherwise it is a premise. */
  lemma {:induction false} ParseAllSingle(raw: string, points: map<string, (real, real)>)
    requires ParseSegment(raw, points).Ok?
    ensures var p := ParseSegment(raw, points).value.1;
      ParseAll([raw], points) == if IsGoalClause(raw) then Ok(([], [p])) else Ok(([p], []))
  {
    var outs := Outcomes([raw], points);
    assert outs[..0] == [];
    assert Collect(outs[..0]) == Ok(([], []));
    var p := ParseSegment(raw, points).value.1;
    assert [] + [p] == [p];
  }
}
