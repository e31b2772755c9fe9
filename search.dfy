/**
 * Depth-bounded alpha-beta search over an abstract game tree, as the engine's
 * minimax runs it: children in order, a running best score that starts at an
 * infinity and is replaced only by a strictly better score (so ties keep the
 * earliest child), the window narrowed after every child, and a cutoff as soon
 * as beta <= alpha. The main results: the score is fail-soft with respect to
 * the plain minimax value, so with the full window it is that value.
 */
module Search {
  import opened Board

  // ---------------------------------------------------------------------------
  // Integers with the two infinities the search starts from
  // ---------------------------------------------------------------------------

  datatype ExtInt = NegInf | Fin(value: int) | PosInf

  /** x <= y, with -inf below and +inf above every integer. */
  predicate Le(x: ExtInt, y: ExtInt)
  {
    match x
    case NegInf => true
    case Fin(a) => y.PosInf? || (y.Fin? && a <= y.value)
    case PosInf => y.PosInf?
  }

  predicate Lt(x: ExtInt, y: ExtInt)
  {
    !Le(y, x)
  }

  function Max(x: ExtInt, y: ExtInt): (r: ExtInt)
    ensures Le(x, r) && Le(y, r) && (r == x || r == y)
  {
    if Le(x, y) then y else x
  }

  function Min(x: ExtInt, y: ExtInt): (r: ExtInt)
    ensures Le(r, x) && Le(r, y) && (r == x || r == y)
  {
    if Le(x, y) then x else y
  }

  // ---------------------------------------------------------------------------
  // Trees and the search
  // ---------------------------------------------------------------------------

  /** A position: its static evaluation and the positions after each move, in order. */
  datatype Tree = Node(leaf: int, children: seq<Tree>)

  /** One examined child: the window it was searched with and the score it returned. */
  datatype Visit = Visit(alpha: ExtInt, beta: ExtInt, score: int)

  /** A node's result: the score, the index of the chosen child (None at a leaf) and
      the children examined before the loop ended. */
  datatype Outcome = Outcome(score: int, best: Option<nat>, visits: seq<Visit>)

  /** The search of a node: a leaf scores its evaluation; otherwise the children are
      scanned from the first with the starting bound -inf (maximizing) or +inf. */
  function AlphaBeta(t: Tree, alpha: ExtInt, beta: ExtInt, max: bool): Outcome
    decreases t, 1
  {
    if t.children == [] then Outcome(t.leaf, None, [])
    else Scan(t, 0, if max then NegInf else PosInf, None, alpha, beta, [], max)
  }

  /** The loop of a node from child k on, with the running bound (max_eval or
      min_eval), the running best index, the current window and the children
      examined so far. */
  function Scan(t: Tree, k: nat, bound: ExtInt, best: Option<nat>, alpha: ExtInt, beta: ExtInt,
                visits: seq<Visit>, max: bool): Outcome
    requires 0 < |t.children| && k <= |t.children|
    requires k == 0 ==> bound == if max then NegInf else PosInf
    requires k > 0 ==> bound.Fin?
    decreases t, 0, |t.children| - k
  {
    if k == |t.children| then Outcome(bound.value, best, visits)
    else
      var v := AlphaBeta(t.children[k], alpha, beta, !max).score;
      var visits' := visits + [Visit(alpha, beta, v)];
      var improves := if max then Lt(bound, Fin(v)) else Lt(Fin(v), bound);
      var bound' := if improves then Fin(v) else bound;
      var best' := if improves then Some(k) else best;
      var alpha' := if max then Max(alpha, Fin(v)) else alpha;
      var beta' := if max then beta else Min(beta, Fin(v));
      if Le(beta', alpha') then Outcome(bound'.value, best', visits')
      else Scan(t, k + 1, bound', best', alpha', beta', visits', max)
  }

  /** One turn of a node's loop: the outcome from child k on, in terms of the child's
      score and the state the turn leaves. */
  lemma ScanStep(t: Tree, k: nat, bound: ExtInt, best: Option<nat>, alpha: ExtInt, beta: ExtInt,
                 visits: seq<Visit>, max: bool)
    requires 0 < |t.children| && k < |t.children|
    requires k == 0 ==> bound == if max then NegInf else PosInf
    requires k > 0 ==> bound.Fin?
    ensures var v := AlphaBeta(t.children[k], alpha, beta, !max).score;
      var improves := if max then Lt(bound, Fin(v)) else Lt(Fin(v), bound);
      var bound' := if improves then Fin(v) else bound;
      var best' := if improves then Some(k) else best;
      var w := After(Visit(alpha, beta, v), max);
      bound'.Fin?
      && Scan(t, k, bound, best, alpha, beta, visits, max) ==
           if Le(w.1, w.0) then Outcome(bound'.value, best', visits + [Visit(alpha, beta, v)])
           else Scan(t, k + 1, bound', best', w.0, w.1, visits + [Visit(alpha, beta, v)], max)
  {
  }

  // ---------------------------------------------------------------------------
  // The reference: plain minimax
  // ---------------------------------------------------------------------------

  /** The minimax value of a tree: a leaf's evaluation, or the best of the children's
      values for the side to move. */
  function MinimaxValue(t: Tree, max: bool): int
    decreases t, 1
  {
    if t.children == [] then t.leaf else Extreme(t, |t.children|, max).value
  }

  /** The best of the values of the first k children (an infinity for none). */
  function Extreme(t: Tree, k: nat, max: bool): (r: ExtInt)
    requires k <= |t.children|
    ensures k > 0 ==> r.Fin?
    decreases t, 0, k
  {
    if k == 0 then (if max then NegInf else PosInf)
    else
      var v := Fin(MinimaxValue(t.children[k - 1], !max));
      if max then Max(Extreme(t, k - 1, max), v) else Min(Extreme(t, k - 1, max), v)
  }

  /** The best over more children is at least as good. */
  lemma {:induction false} ExtremeMonotone(t: Tree, k: nat, n: nat, max: bool)
    requires k <= n <= |t.children|
    ensures max ==> Le(Extreme(t, k, max), Extreme(t, n, max))
    ensures !max ==> Le(Extreme(t, n, max), Extreme(t, k, max))
    decreases n - k
  {
    if k < n {
      ExtremeMonotone(t, k + 1, n, max);
    }
  }

  // ---------------------------------------------------------------------------
  // Alpha-beta against minimax
  // ---------------------------------------------------------------------------

  /** Fail-soft: a score at or below alpha bounds the true value from above, one at or
      above beta bounds it from below, and one strictly inside the window is exact. */
  predicate FailSoft(r: int, v: int, alpha: ExtInt, beta: ExtInt)
  {
    (Le(Fin(r), alpha) ==> v <= r)
    && (Le(beta, Fin(r)) ==> r <= v)
    && (Lt(alpha, Fin(r)) && Lt(Fin(r), beta) ==> v == r)
  }

  lemma {:induction false} AlphaBetaFailSoft(t: Tree, alpha: ExtInt, beta: ExtInt, max: bool)
    requires Lt(alpha, beta)
    ensures FailSoft(AlphaBeta(t, alpha, beta, max).score, MinimaxValue(t, max), alpha, beta)
    decreases t, 1
  {
    if t.children != [] {
      if max {
        ScanFailSoftMax(t, 0, NegInf, None, alpha, beta, [], alpha);
      } else {
        ScanFailSoftMin(t, 0, PosInf, None, alpha, beta, [], beta);
      }
    }
  }

  /** The maximizing loop: with alpha0 the window's original lower end, the current
      alpha is the better of alpha0 and the running bound; a bound above alpha0 is the
      exact best of the children so far, and one at or below alpha0 bounds it. */
  lemma {:induction false} ScanFailSoftMax(t: Tree, k: nat, bound: ExtInt, best: Option<nat>,
                                           alpha: ExtInt, beta: ExtInt, visits: seq<Visit>, alpha0: ExtInt)
    requires 0 < |t.children| && k <= |t.children|
    requires k == 0 ==> bound == NegInf
    requires k > 0 ==> bound.Fin?
    requires Lt(alpha, beta) && alpha == Max(alpha0, bound)
    requires Lt(alpha0, bound) ==> Extreme(t, k, true) == bound
    requires Le(bound, alpha0) ==> Le(Extreme(t, k, true), bound)
    ensures FailSoft(Scan(t, k, bound, best, alpha, beta, visits, true).score, MinimaxValue(t, true), alpha0, beta)
    decreases t, 0, |t.children| - k
  {
    if k < |t.children| {
      var child := t.children[k];
      AlphaBetaFailSoft(child, alpha, beta, false);
      var v := AlphaBeta(child, alpha, beta, false).score;
      var improves := Lt(bound, Fin(v));
      var bound' := if improves then Fin(v) else bound;
      var best' := if improves then Some(k) else best;
      var alpha' := Max(alpha, Fin(v));
      if Le(beta, alpha') {
        ExtremeMonotone(t, k + 1, |t.children|, true);
      } else {
        ScanFailSoftMax(t, k + 1, bound', best', alpha', beta, visits + [Visit(alpha, beta, v)], alpha0);
      }
    }
  }

  /** The minimizing loop, the mirror image: beta0 is the window's original upper end. */
  lemma {:induction false} ScanFailSoftMin(t: Tree, k: nat, bound: ExtInt, best: Option<nat>,
                                           alpha: ExtInt, beta: ExtInt, visits: seq<Visit>, beta0: ExtInt)
    requires 0 < |t.children| && k <= |t.children|
    requires k == 0 ==> bound == PosInf
    requires k > 0 ==> bound.Fin?
    requires Lt(alpha, beta) && beta == Min(beta0, bound)
    requires Lt(bound, beta0) ==> Extreme(t, k, false) == bound
    requires Le(beta0, bound) ==> Le(bound, Extreme(t, k, false))
    ensures FailSoft(Scan(t, k, bound, best, alpha, beta, visits, false).score, MinimaxValue(t, false), alpha, beta0)
    decreases t, 0, |t.children| - k
  {
    if k < |t.children| {
      var child := t.children[k];
      AlphaBetaFailSoft(child, alpha, beta, true);
      var v := AlphaBeta(child, alpha, beta, true).score;
      var improves := Lt(Fin(v), bound);
      var bound' := if improves then Fin(v) else bound;
      var best' := if improves then Some(k) else best;
      var beta' := Min(beta, Fin(v));
      if Le(beta', alpha) {
        ExtremeMonotone(t, k + 1, |t.children|, false);
      } else {
        ScanFailSoftMin(t, k + 1, bound', best', alpha, beta', visits + [Visit(alpha, beta, v)], beta0);
      }
    }
  }

  /** With the full window the search returns exactly the minimax value: pruning
      changes only the work done. */
  lemma AlphaBetaIsMinimax(t: Tree, max: bool)
    ensures AlphaBeta(t, NegInf, PosInf, max).score == MinimaxValue(t, max)
  {
    AlphaBetaFailSoft(t, NegInf, PosInf, max);
  }

  // ---------------------------------------------------------------------------
  // What the loop of a node did
  // ---------------------------------------------------------------------------

  /** The window a child leaves behind: alpha raised to its score (maximizing) or beta
      lowered to it (minimizing). */
  function After(v: Visit, max: bool): (w: (ExtInt, ExtInt))
    ensures max ==> w.1 == v.beta && Le(v.alpha, w.0) && Le(Fin(v.score), w.0)
    ensures !max ==> w.0 == v.alpha && Le(w.1, v.beta) && Le(w.1, Fin(v.score))
  {
    if max then (Max(v.alpha, Fin(v.score)), v.beta) else (v.alpha, Min(v.beta, Fin(v.score)))
  }

  /** Each examined child's score is what the search of that child returned with the
      window it was given, and the children were examined from the first on. */
  predicate Examined(t: Tree, visits: seq<Visit>, max: bool)
  {
    |visits| <= |t.children|
    && forall q :: 0 <= q < |visits| ==>
         visits[q].score == AlphaBeta(t.children[q], visits[q].alpha, visits[q].beta, !max).score
  }

  /** The first child is searched with the node's window and every later one with the
      window the previous child left, which was still open (alpha < beta). */
  predicate Chained(visits: seq<Visit>, alpha: ExtInt, beta: ExtInt, max: bool)
  {
    (|visits| > 0 ==> visits[0].alpha == alpha && visits[0].beta == beta)
    && forall q :: 0 < q < |visits| ==>
         (visits[q].alpha, visits[q].beta) == After(visits[q - 1], max) && Lt(visits[q].alpha, visits[q].beta)
  }

  /** `best` is the earliest examined child with the best score, and `score` is that score. */
  predicate Leads(visits: seq<Visit>, best: nat, score: int, max: bool)
  {
    best < |visits| && visits[best].score == score
    && (forall q :: 0 <= q < |visits| ==> if max then visits[q].score <= score else score <= visits[q].score)
    && (forall q :: 0 <= q < best ==> if max then visits[q].score < score else score < visits[q].score)
  }

  /** The window left by the last examined child is closed (beta <= alpha). */
  predicate ClosedAfter(visits: seq<Visit>, max: bool)
  {
    |visits| > 0 && Le(After(visits[|visits| - 1], max).1, After(visits[|visits| - 1], max).0)
  }

  /** What an inner node's loop did, as its result records it. */
  predicate Record(t: Tree, r: Outcome, alpha: ExtInt, beta: ExtInt, max: bool)
  {
    0 < |r.visits| && Examined(t, r.visits, max) && Chained(r.visits, alpha, beta, max)
    && r.best.Some? && Leads(r.visits, r.best.value, r.score, max)
    && (|r.visits| < |t.children| ==> ClosedAfter(r.visits, max))
  }

  /** A leaf scores its evaluation and chooses nothing. At an inner node the search
      examines at least the first child, in order and with the windows the loop passes
      down; it returns the best score among the children it examined, chosen by the
      earliest child reaching it; and it stops before the last child only when the
      window has closed (beta <= alpha). */
  lemma AlphaBetaRecord(t: Tree, alpha: ExtInt, beta: ExtInt, max: bool)
    ensures var r := AlphaBeta(t, alpha, beta, max);
      if t.children == [] then r == Outcome(t.leaf, None, [])
      else
        Record(t, r, alpha, beta, max)
  {
    if t.children != [] {
      ScanRecord(t, 0, if max then NegInf else PosInf, None, alpha, beta, [], max, alpha, beta);
    }
  }

  /** The running bound and best index after one more child still pick the earliest
      best examined child. */
  lemma LeadsExtend(visits: seq<Visit>, best: Option<nat>, bound: ExtInt, visit: Visit, max: bool)
    requires |visits| == 0 ==> bound == if max then NegInf else PosInf
    requires |visits| > 0 ==> bound.Fin? && best.Some? && Leads(visits, best.value, bound.value, max)
    ensures var improves := if max then Lt(bound, Fin(visit.score)) else Lt(Fin(visit.score), bound);
      var bound' := if improves then Fin(visit.score) else bound;
      var best' := if improves then Some(|visits|) else best;
      bound'.Fin? && best'.Some? && Leads(visits + [visit], best'.value, bound'.value, max)
  {
    var visits' := visits + [visit];
    assert visits'[|visits|] == visit;
    assert forall q :: 0 <= q < |visits| ==> visits'[q] == visits[q];
  }

  /** One more child, searched with the window the loop holds, extends the record. */
  lemma RecordExtend(t: Tree, visits: seq<Visit>, visit: Visit, max: bool, alpha0: ExtInt, beta0: ExtInt)
    requires |visits| < |t.children| && Examined(t, visits, max) && Chained(visits, alpha0, beta0, max)
    requires visit.score == AlphaBeta(t.children[|visits|], visit.alpha, visit.beta, !max).score
    requires |visits| == 0 ==> visit.alpha == alpha0 && visit.beta == beta0
    requires |visits| > 0 ==>
      (visit.alpha, visit.beta) == After(visits[|visits| - 1], max) && Lt(visit.alpha, visit.beta)
    ensures Examined(t, visits + [visit], max) && Chained(visits + [visit], alpha0, beta0, max)
  {
    var visits' := visits + [visit];
    assert visits'[|visits|] == visit;
    assert forall q :: 0 <= q < |visits| ==> visits'[q] == visits[q];
  }

  lemma {:induction false} ScanRecord(t: Tree, k: nat, bound: ExtInt, best: Option<nat>, alpha: ExtInt, beta: ExtInt,
                                      visits: seq<Visit>, max: bool, alpha0: ExtInt, beta0: ExtInt)
    requires 0 < |t.children| && k <= |t.children|
    requires k == 0 ==> bound == if max then NegInf else PosInf
    requires k > 0 ==> bound.Fin?
    requires |visits| == k && Examined(t, visits, max) && Chained(visits, alpha0, beta0, max)
    requires k == 0 ==> alpha == alpha0 && beta == beta0
    requires k > 0 ==>
      (alpha, beta) == After(visits[k - 1], max) && Lt(alpha, beta)
      && best.Some? && Leads(visits, best.value, bound.value, max)
    ensures var r := Scan(t, k, bound, best, alpha, beta, visits, max);
      Record(t, r, alpha0, beta0, max)
    decreases |t.children| - k
  {
    if k < |t.children| {
      var v := AlphaBeta(t.children[k], alpha, beta, !max).score;
      var visit := Visit(alpha, beta, v);
      var visits' := visits + [visit];
      var improves := if max then Lt(bound, Fin(v)) else Lt(Fin(v), bound);
      var bound' := if improves then Fin(v) else bound;
      var best' := if improves then Some(k) else best;
      LeadsExtend(visits, best, bound, visit, max);
      RecordExtend(t, visits, visit, max, alpha0, beta0);
      var (alpha', beta') := After(visit, max);
      if Le(beta', alpha') {
        assert Scan(t, k, bound, best, alpha, beta, visits, max) == Outcome(bound'.value, best', visits');
        assert visits'[|visits'| - 1] == visit;
        assert ClosedAfter(visits', max);
      } else {
        assert Scan(t, k, bound, best, alpha, beta, visits, max) == Scan(t, k + 1, bound', best', alpha', beta', visits', max);
        ScanRecord(t, k + 1, bound', best', alpha', beta', visits', max, alpha0, beta0);
      }
    }
  }
}
