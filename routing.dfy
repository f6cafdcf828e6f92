/**
 * The nearest-bay heuristic's scoring and the specification of its choice:
 * among all (matching bay, entry point) pairs, the first pair in row-major
 * bay order, then entry-point order, whose score is minimal.
 */
module Routing {
  import opened Layout

  /** The entry points, in order; index 0 carries the 15% penalty. */
  const EntryPoints: seq<(int, int)> := [(0, 0), (Rows - 1, 0)]

  function Abs(x: int): nat {
    if x < 0 then -x else x
  }

  /** Manhattan distance from an entry point to the bay at (r, c). */
  function Manhattan(entry: (int, int), r: int, c: int): nat {
    Abs(entry.0 - r) + Abs(entry.1 - c)
  }

  /** The distance the source computes, in exact decimal arithmetic. */
  ghost function SourceDistance(entryIndex: nat, d: nat, ladder: bool): real {
    (if entryIndex == 0 then d as real * 1.15 else d as real) + (if ladder then 5.0 else 0.0)
  }

  /**
   * The same distance scaled by 20, so that it is an integer: 23 per step
   * from entry point 0, 20 per step otherwise, 100 for a ladder.
   */
  function Score(entryIndex: nat, d: nat, ladder: bool): (s: nat)
    ensures s as real == 20.0 * SourceDistance(entryIndex, d, ladder)
  {
    (if entryIndex == 0 then 23 * d else 20 * d) + (if ladder then 100 else 0)
  }

  /** Bay (r, c) of `g` has the requested type and `e` names an entry point. */
  ghost predicate Candidate(g: Grid, footwear: string, r: int, c: int, e: int) {
    0 <= r < |g| && 0 <= c < |g[r]| && g[r][c].category == footwear && 0 <= e < |EntryPoints|
  }

  /** The score of bay (r, c) seen from entry point e. */
  function PairScore(g: Grid, r: nat, c: nat, e: nat): nat
    requires r < |g| && c < |g[r]| && e < |EntryPoints|
  {
    Score(e, Manhattan(EntryPoints[e], r, c), g[r][c].requiresLadder)
  }

  /** Lexicographic scan order: row, then column, then entry point. */
  predicate Before(r1: int, c1: int, e1: int, r2: int, c2: int, e2: int) {
    r1 < r2 || (r1 == r2 && (c1 < c2 || (c1 == c2 && e1 < e2)))
  }

  ghost predicate AnyMatch(g: Grid, footwear: string) {
    exists r, c :: 0 <= r < |g| && 0 <= c < |g[r]| && g[r][c].category == footwear
  }

  /**
   * (r, c, e) is a candidate whose score no candidate beats, and every
   * candidate scanned before it scores strictly more.
   */
  ghost predicate IsFirstBest(g: Grid, footwear: string, r: int, c: int, e: int) {
    && Candidate(g, footwear, r, c, e)
    && (forall r', c', e' :: Candidate(g, footwear, r', c', e') ==>
          PairScore(g, r, c, e) <= PairScore(g, r', c', e'))
    && (forall r', c', e' :: Candidate(g, footwear, r', c', e') && Before(r', c', e', r, c, e) ==>
          PairScore(g, r, c, e) < PairScore(g, r', c', e'))
  }

  /** The tie-break pins the choice down: at most one pair is the first best. */
  lemma FirstBestUnique(g: Grid, footwear: string, r1: int, c1: int, e1: int, r2: int, c2: int, e2: int)
    requires IsFirstBest(g, footwear, r1, c1, e1) && IsFirstBest(g, footwear, r2, c2, e2)
    ensures r1 == r2 && c1 == c2 && e1 == e2
  {
    assert !Before(r1, c1, e1, r2, c2, e2) && !Before(r2, c2, e2, r1, c1, e1);
  }

  /** A ladder always costs the flat penalty, whatever the entry point and distance. */
  lemma LadderPenalty(entryIndex: nat, d: nat)
    ensures Score(entryIndex, d, true) == Score(entryIndex, d, false) + 100
    ensures SourceDistance(entryIndex, d, true) > SourceDistance(entryIndex, d, false)
  {
  }

  /** Two grids that differ at most in the genders of their bays. */
  ghost predicate SameButGender(g1: Grid, g2: Grid) {
    && |g1| == |g2|
    && (forall r :: 0 <= r < |g1| ==> |g1[r]| == |g2[r]|)
    && (forall r, c :: 0 <= r < |g1| && 0 <= c < |g1[r]| ==>
          g1[r][c].category == g2[r][c].category && g1[r][c].requiresLadder == g2[r][c].requiresLadder)
  }

  /** Routing never consults gender: regendering the grid changes no choice. */
  lemma GenderNotConsulted(g1: Grid, g2: Grid, footwear: string, r: int, c: int, e: int)
    requires SameButGender(g1, g2)
    ensures AnyMatch(g1, footwear) <==> AnyMatch(g2, footwear)
    ensures IsFirstBest(g1, footwear, r, c, e) <==> IsFirstBest(g2, footwear, r, c, e)
  {
    assert forall r', c', e' :: Candidate(g1, footwear, r', c', e') <==> Candidate(g2, footwear, r', c', e');
    assert forall r', c', e' :: Candidate(g1, footwear, r', c', e') ==>
      PairScore(g1, r', c', e') == PairScore(g2, r', c', e');
    if AnyMatch(g1, footwear) {
      var r', c' :| 0 <= r' < |g1| && 0 <= c' < |g1[r']| && g1[r'][c'].category == footwear;
      assert g2[r'][c'].category == footwear;
    }
    if AnyMatch(g2, footwear) {
      var r', c' :| 0 <= r' < |g2| && 0 <= c' < |g2[r']| && g2[r'][c'].category == footwear;
      assert g1[r'][c'].category == footwear;
    }
  }
}
