/**
 * The arithmetic behind both alpha-beta searches of the Expert AI
 * (client/src/utils/gameHelpers.js): extended integers for the -Infinity and
 * Infinity that scores, alpha and beta start from; the move loop that both
 * searches share, as a fold `Run` over the children's search results; and
 * the proof that the loop's best result is a fail-soft bound on the best
 * true value of the children. Nothing here looks at a board: the searches
 * supply the children's results and true values.
 */
module AlphaBeta {
  import opened Options

  // ---------------------------------------------------------------------
  // Extended integers for -Infinity and Infinity
  // ---------------------------------------------------------------------

  datatype Ext = NegInf | Fin(v: int) | PosInf

  /** `a < b` on the extended integers. */
  predicate Less(a: Ext, b: Ext)
  {
    match (a, b)
    case (NegInf, NegInf) => false
    case (NegInf, _) => true
    case (Fin(x), Fin(y)) => x < y
    case (Fin(_), PosInf) => true
    case (_, _) => false
  }

  predicate LessEq(a: Ext, b: Ext)
  {
    !Less(b, a)
  }

  /** `Math.max`: the larger of the two. */
  function Max(a: Ext, b: Ext): (c: Ext)
    ensures LessEq(a, c) && LessEq(b, c) && (c == a || c == b)
  {
    if Less(a, b) then b else a
  }

  /** `Math.min`: the smaller of the two. */
  function Min(a: Ext, b: Ext): (c: Ext)
    ensures LessEq(c, a) && LessEq(c, b) && (c == a || c == b)
  {
    if Less(b, a) then b else a
  }

  // ---------------------------------------------------------------------
  // The move loop of a search node
  // ---------------------------------------------------------------------

  /** The score a node starts from: -Infinity when it maximises, +Infinity otherwise. */
  function Initial(isMax: bool): Ext
  {
    if isMax then NegInf else PosInf
  }

  /**
   * The state of a node's move loop: the best score so far, the position of
   * the child that gave it (-1 before any child), and the window (a, b).
   */
  datatype Node = Node(best: Ext, bestAt: int, a: Ext, b: Ext)

  /**
   * One child at position j returned score r. The best is replaced only by
   * a strictly better score (`>` when maximising, `<` otherwise); alpha
   * rises to `Math.max(alpha, r)` at a maximising node, beta falls to
   * `Math.min(beta, r)` at a minimising one.
   */
  function Update(isMax: bool, s: Node, j: int, r: int): Node
  {
    if isMax then
      var better := Less(s.best, Fin(r));
      Node(if better then Fin(r) else s.best, if better then j else s.bestAt, Max(s.a, Fin(r)), s.b)
    else
      var better := Less(Fin(r), s.best);
      Node(if better then Fin(r) else s.best, if better then j else s.bestAt, s.a, Min(s.b, Fin(r)))
  }

  /**
   * The loop state after a sequence of children: `Some(r)` for a child that
   * was searched with result r, None for a position the loop skips (a
   * marked cell in the 3x3 search).
   */
  function Run(isMax: bool, alpha: Ext, beta: Ext, results: seq<Option<int>>): (s: Node)
    ensures -1 <= s.bestAt < |results|
    ensures s.bestAt >= 0 ==> results[s.bestAt].Some? && s.best == Fin(results[s.bestAt].value)
    ensures s.bestAt < 0 ==> s.best == Initial(isMax)
  {
    if |results| == 0 then Node(Initial(isMax), -1, alpha, beta)
    else
      var j := |results| - 1;
      var s := Run(isMax, alpha, beta, results[..j]);
      match results[j]
      case None => s
      case Some(r) => Update(isMax, s, j, r)
  }

  /** The loop has no best child only while every position so far was skipped. */
  lemma {:induction false} RunNone(isMax: bool, alpha: Ext, beta: Ext, results: seq<Option<int>>)
    requires Run(isMax, alpha, beta, results).bestAt < 0
    ensures forall j :: 0 <= j < |results| ==> results[j].None?
  {
    if |results| > 0 {
      var front := results[..|results| - 1];
      RunNone(isMax, alpha, beta, front);
      assert forall j :: 0 <= j < |front| ==> front[j] == results[j];
    }
  }

  /**
   * What a fail-soft alpha-beta search promises about its result `r` and the
   * true value `v`: a result at or below alpha is an upper bound, one at or
   * above beta a lower bound, and one strictly inside the window is exact.
   */
  predicate Within(alpha: Ext, beta: Ext, r: int, v: int)
  {
    && (LessEq(Fin(r), alpha) ==> v <= r)
    && (Less(alpha, Fin(r)) && Less(Fin(r), beta) ==> v == r)
    && (LessEq(beta, Fin(r)) ==> r <= v)
  }

  /**
   * The children's results agree with their true values `values`: the same
   * positions are skipped, and (when the node's own window is not empty)
   * every child was searched in an open window and its result is a
   * fail-soft bound on its true value in that window.
   */
  predicate Consistent(isMax: bool, alpha: Ext, beta: Ext, results: seq<Option<int>>, values: seq<Option<int>>)
    requires |results| <= |values|
  {
    if |results| == 0 then true
    else
      var j := |results| - 1;
      var s := Run(isMax, alpha, beta, results[..j]);
      && Consistent(isMax, alpha, beta, results[..j], values)
      && (results[j].Some? <==> values[j].Some?)
      && (results[j].Some? && Less(alpha, beta) ==>
            Less(s.a, s.b) && Within(s.a, s.b, results[j].value, values[j].value))
  }

  /** A searched child extends consistent results by the source's update. */
  lemma RunTry(isMax: bool, alpha: Ext, beta: Ext, results: seq<Option<int>>, values: seq<Option<int>>, r: int)
    requires |results| < |values| && Consistent(isMax, alpha, beta, results, values) && values[|results|].Some?
    requires var s := Run(isMax, alpha, beta, results);
      Less(alpha, beta) ==> Less(s.a, s.b) && Within(s.a, s.b, r, values[|results|].value)
    ensures Consistent(isMax, alpha, beta, results + [Some(r)], values)
    ensures Run(isMax, alpha, beta, results + [Some(r)]) == Update(isMax, Run(isMax, alpha, beta, results), |results|, r)
  {
    assert (results + [Some(r)])[..|results|] == results;
  }

  /** After a searched child the loop has a best child, at a position searched so far. */
  lemma UpdateHasBest(isMax: bool, s: Node, j: int, r: int)
    requires -1 <= s.bestAt < j
    requires s.bestAt < 0 ==> s.best == Initial(isMax)
    ensures 0 <= Update(isMax, s, j, r).bestAt <= j
  {
  }

  /** A skipped position leaves the loop state as it was. */
  lemma RunSkip(isMax: bool, alpha: Ext, beta: Ext, results: seq<Option<int>>, values: seq<Option<int>>)
    requires |results| < |values| && Consistent(isMax, alpha, beta, results, values) && values[|results|].None?
    ensures Consistent(isMax, alpha, beta, results + [None], values)
    ensures Run(isMax, alpha, beta, results + [None]) == Run(isMax, alpha, beta, results)
  {
    assert (results + [None])[..|results|] == results;
  }

  // ---------------------------------------------------------------------
  // The true value of a node
  // ---------------------------------------------------------------------

  /** The better of two scores for the node's mover. */
  function Improve(isMax: bool, best: Ext, x: Ext): Ext
  {
    if isMax then Max(best, x) else Min(best, x)
  }

  /** The best true value among the children present, folded in order from the node's starting infinity. */
  function BestOf(isMax: bool, values: seq<Option<int>>): (best: Ext)
    ensures (exists j :: 0 <= j < |values| && values[j].Some?) ==> best.Fin?
    ensures (forall j :: 0 <= j < |values| ==> values[j].None?) ==> best == Initial(isMax)
  {
    if |values| == 0 then Initial(isMax)
    else
      var j := |values| - 1;
      var before := BestOf(isMax, values[..j]);
      assert forall i :: 0 <= i < j ==> values[..j][i] == values[i];
      match values[j]
      case None => before
      case Some(v) => Improve(isMax, before, Fin(v))
  }

  /** Folding in more children only moves the best further in the mover's favour. */
  lemma {:induction false} BestOfMonotone(isMax: bool, values: seq<Option<int>>, k: nat)
    requires k <= |values|
    ensures isMax ==> LessEq(BestOf(isMax, values[..k]), BestOf(isMax, values))
    ensures !isMax ==> LessEq(BestOf(isMax, values), BestOf(isMax, values[..k]))
    decreases |values|
  {
    if k < |values| {
      var front := values[..|values| - 1];
      BestOfMonotone(isMax, front, k);
      assert front[..k] == values[..k];
    } else {
      assert values[..k] == values;
    }
  }

  // ---------------------------------------------------------------------
  // The loop's best result bounds the node's true value
  // ---------------------------------------------------------------------

  /** What a maximising node knows about its best result `best` and the best true value `m` of the children tried. */
  predicate MaxKnows(alpha: Ext, beta: Ext, best: Ext, m: Ext)
  {
    && (LessEq(best, alpha) ==> LessEq(m, best))
    && (Less(alpha, best) ==> LessEq(best, m))
    && (Less(alpha, best) && Less(best, beta) ==> LessEq(m, best))
  }

  /** The same at a minimising node. */
  predicate MinKnows(alpha: Ext, beta: Ext, best: Ext, m: Ext)
  {
    && (LessEq(beta, best) ==> LessEq(best, m))
    && (Less(best, beta) ==> LessEq(m, best))
    && (Less(alpha, best) && Less(best, beta) ==> LessEq(best, m))
  }

  lemma MaxStep(alpha: Ext, beta: Ext, best: Ext, m: Ext, r: int, v: int)
    requires Less(alpha, beta) && MaxKnows(alpha, beta, best, m)
    requires Less(Max(alpha, best), beta)
    requires Within(Max(alpha, best), beta, r, v)
    ensures MaxKnows(alpha, beta, Max(best, Fin(r)), Max(m, Fin(v)))
    ensures Less(best, Fin(r)) && Less(alpha, Fin(r)) && Less(Fin(r), beta) ==> v == r
  {
  }

  lemma MinStep(alpha: Ext, beta: Ext, best: Ext, m: Ext, r: int, v: int)
    requires Less(alpha, beta) && MinKnows(alpha, beta, best, m)
    requires Less(alpha, Min(beta, best))
    requires Within(alpha, Min(beta, best), r, v)
    ensures MinKnows(alpha, beta, Min(best, Fin(r)), Min(m, Fin(v)))
    ensures Less(Fin(r), best) && Less(alpha, Fin(r)) && Less(Fin(r), beta) ==> v == r
  {
  }

  /**
   * After the first k positions: the window is alpha raised (or beta
   * lowered) by the best result, and against the best true value so far the
   * best result is what `MaxKnows` / `MinKnows` say; a best result inside
   * the node's window is the true value of the child that gave it.
   */
  lemma {:induction false} RunKnows(isMax: bool, alpha: Ext, beta: Ext, results: seq<Option<int>>, values: seq<Option<int>>)
    requires |results| <= |values| && Consistent(isMax, alpha, beta, results, values)
    ensures var s := Run(isMax, alpha, beta, results);
      && (isMax ==> s.a == Max(alpha, s.best) && s.b == beta)
      && (!isMax ==> s.a == alpha && s.b == Min(beta, s.best))
      && (s.bestAt >= 0 ==> values[s.bestAt].Some?)
      && (Less(alpha, beta) && isMax ==> MaxKnows(alpha, beta, s.best, BestOf(isMax, values[..|results|])))
      && (Less(alpha, beta) && !isMax ==> MinKnows(alpha, beta, s.best, BestOf(isMax, values[..|results|])))
      && (Less(alpha, beta) && s.bestAt >= 0 && Less(alpha, s.best) && Less(s.best, beta) ==>
            values[s.bestAt] == Some(s.best.v))
    decreases |results|
  {
    var k := |results|;
    if k > 0 {
      var j := k - 1;
      var front := results[..j];
      RunKnows(isMax, alpha, beta, front, values);
      var s := Run(isMax, alpha, beta, front);
      var m := BestOf(isMax, values[..j]);
      assert values[..k][..j] == values[..j];
      assert BestOf(isMax, values[..k]) == (if values[j].Some? then Improve(isMax, m, Fin(values[j].value)) else m);
      if results[j].Some? && Less(alpha, beta) {
        if isMax {
          MaxStep(alpha, beta, s.best, m, results[j].value, values[j].value);
        } else {
          MinStep(alpha, beta, s.best, m, results[j].value, values[j].value);
        }
      }
    }
  }

  /**
   * When the loop ends, after the last position or at a cut-off (alpha no
   * longer below beta after a child), its best result is a fail-soft bound
   * on the node's true value, and inside the window it is the true value of
   * the child it names.
   */
  lemma RunDone(isMax: bool, alpha: Ext, beta: Ext, results: seq<Option<int>>, values: seq<Option<int>>)
    requires |results| <= |values| && Consistent(isMax, alpha, beta, results, values)
    requires |results| == |values| || (|results| > 0 && results[|results| - 1].Some? &&
                                       var s := Run(isMax, alpha, beta, results); !Less(s.a, s.b))
    requires exists j :: 0 <= j < |values| && values[j].Some?
    ensures var s := Run(isMax, alpha, beta, results);
      && 0 <= s.bestAt < |results| && values[s.bestAt].Some? && s.best.Fin? && BestOf(isMax, values).Fin?
      && (Less(alpha, beta) ==> Within(alpha, beta, s.best.v, BestOf(isMax, values).v))
      && (Less(alpha, beta) && Less(alpha, s.best) && Less(s.best, beta) ==> values[s.bestAt].value == s.best.v)
  {
    var s := Run(isMax, alpha, beta, results);
    var k := |results|;
    RunKnows(isMax, alpha, beta, results, values);
    ConsistentSkips(isMax, alpha, beta, results, values);
    if s.bestAt < 0 {
      RunNone(isMax, alpha, beta, results);
    }
    if k == |values| {
      assert values[..k] == values;
    } else {
      BestOfMonotone(isMax, values, k);
    }
  }

  /** Consistent results skip exactly the positions the values skip. */
  lemma {:induction false} ConsistentSkips(isMax: bool, alpha: Ext, beta: Ext, results: seq<Option<int>>, values: seq<Option<int>>)
    requires |results| <= |values| && Consistent(isMax, alpha, beta, results, values)
    ensures forall j :: 0 <= j < |results| ==> (results[j].Some? <==> values[j].Some?)
    decreases |results|
  {
    if |results| > 0 {
      ConsistentSkips(isMax, alpha, beta, results[..|results| - 1], values);
    }
  }
}
