/**
 * The layout compiler of the warehouse simulation: an ordered list of
 * row-range rules is turned into a grid of storage bays, each row taking
 * the category and gender of the first rule whose range contains it.
 */
module Layout {

  datatype Option<T> = None | Some(value: T)

  /** Grid dimensions of the reference configuration. */
  const Rows: nat := 35
  const Cols: nat := 5

  /** The categories a request is drawn from. */
  const Categories: seq<string> := ["Lifestyle", "RoadRunners", "TrailRunners", "LowHikers", "MidHikers"]

  datatype Gender = Men | Women | Unisex | Unspecified

  /** A layout rule covers the rows `lo <= r < hi` (a step-1 range). */
  datatype LayoutRule = LayoutRule(lo: int, hi: int, category: string, gender: Gender)
  {
    predicate Contains(r: int) {
      lo <= r < hi
    }
  }

  /** One storage bay; `category` is the bay's "type". */
  datatype Bay = Bay(category: string, gender: Gender, id: int, weight: int, requiresLadder: bool)

  type Grid = seq<seq<Bay>>

  /** The zone of a row that no rule covers. */
  const Fallback: (string, Gender) := ("Uncategorized", Unspecified)

  const CurrentRules: seq<LayoutRule> := [
    LayoutRule(3, 9, "RoadRunners", Women),
    LayoutRule(9, 12, "TrailRunners", Women),
    LayoutRule(12, 18, "RoadRunners", Men),
    LayoutRule(18, 22, "TrailRunners", Men),
    LayoutRule(22, 25, "LowHikers", Women),
    LayoutRule(25, 29, "MidHikers", Women),
    LayoutRule(29, 30, "Blundstones", Unisex),
    LayoutRule(30, 33, "LowHikers", Men),
    LayoutRule(33, 38, "MidHikers", Men)
  ]

  const AlternateRules: seq<LayoutRule> := [
    LayoutRule(0, 7, "Lifestyle", Men),
    LayoutRule(7, 14, "RoadRunners", Men),
    LayoutRule(14, 21, "TrailRunners", Men),
    LayoutRule(21, 28, "LowHikers", Men),
    LayoutRule(28, 35, "MidHikers", Men),
    LayoutRule(0, 7, "MidHikers", Women),
    LayoutRule(7, 14, "LowHikers", Women),
    LayoutRule(14, 21, "TrailRunners", Women),
    LayoutRule(21, 28, "RoadRunners", Women),
    LayoutRule(28, 35, "Lifestyle", Women)
  ]

  /** The zone found by scanning `rules` from index `k` on. */
  function ZoneFrom(rules: seq<LayoutRule>, k: nat, r: int): (string, Gender)
    decreases |rules| - k
  {
    if k >= |rules| then Fallback
    else if rules[k].Contains(r) then (rules[k].category, rules[k].gender)
    else ZoneFrom(rules, k + 1, r)
  }

  /** The (category, gender) that row `r` takes under `rules`. */
  function RowZone(rules: seq<LayoutRule>, r: int): (string, Gender) {
    ZoneFrom(rules, 0, r)
  }

  /**
   * The sales weight of a bay: the map's entry for the category when a
   * non-empty map is supplied, 1 otherwise (an empty map is falsy).
   */
  function WeightOf(salesWeights: Option<map<string, int>>, category: string): (w: int)
    ensures salesWeights.Some? && category in salesWeights.value ==> w == salesWeights.value[category]
    ensures salesWeights.None? || category !in salesWeights.value ==> w == 1
  {
    match salesWeights
    case None => 1
    case Some(m) => if m == map[] then 1 else if category in m then m[category] else 1
  }

  predicate InGrid(r: int, c: int) {
    0 <= r < Rows && 0 <= c < Cols
  }

  /** The grid has `Rows` rows of `Cols` bays. */
  predicate WellShaped(g: Grid) {
    |g| == Rows && forall r :: 0 <= r < Rows ==> |g[r]| == Cols
  }

  /** Every bay carries the row-major, 1-based id. */
  ghost predicate RowMajorIds(g: Grid)
    requires WellShaped(g)
  {
    forall r, c :: InGrid(r, c) ==> g[r][c].id == r * Cols + c + 1
  }

  /** Builds the grid by appending bays row by row, as the source does. */
  method PopulateWarehouse(rules: seq<LayoutRule>, salesWeights: Option<map<string, int>>)
    returns (warehouse: Grid)
    ensures WellShaped(warehouse) && RowMajorIds(warehouse)
    ensures forall r, c :: InGrid(r, c) ==>
      (warehouse[r][c].category, warehouse[r][c].gender) == RowZone(rules, r)
    ensures forall r, c :: InGrid(r, c) ==>
      warehouse[r][c].weight == WeightOf(salesWeights, warehouse[r][c].category)
    ensures forall r, c :: InGrid(r, c) ==> (warehouse[r][c].requiresLadder <==> c > 2)
  {
    warehouse := [];
    var r := 0;
    while r < Rows
      invariant 0 <= r <= Rows && |warehouse| == r
      invariant forall i :: 0 <= i < r ==> |warehouse[i]| == Cols
      invariant forall i, c :: 0 <= i < r && 0 <= c < Cols ==>
        warehouse[i][c] == Bay(RowZone(rules, i).0, RowZone(rules, i).1, i * Cols + c + 1,
                               WeightOf(salesWeights, RowZone(rules, i).0), c > 2)
    {
      // first rule whose range contains r, else the fallback
      var category, gender := Fallback.0, Fallback.1;
      var k, matched := 0, false;
      while k < |rules| && !matched
        invariant 0 <= k <= |rules|
        invariant matched ==> (category, gender) == RowZone(rules, r)
        invariant !matched ==> ZoneFrom(rules, k, r) == RowZone(rules, r)
        decreases |rules| - k, if matched then 0 else 1
      {
        if rules[k].Contains(r) {
          category, gender := rules[k].category, rules[k].gender;
          matched := true;
        } else {
          k := k + 1;
        }
      }
      if !matched {
        category, gender := Fallback.0, Fallback.1;
      }
      var row: seq<Bay> := [];
      var c := 0;
      while c < Cols
        invariant 0 <= c <= Cols && |row| == c
        invariant forall j :: 0 <= j < c ==>
          row[j] == Bay(category, gender, r * Cols + j + 1, WeightOf(salesWeights, category), j > 2)
      {
        row := row + [Bay(category, gender, r * Cols + c + 1, WeightOf(salesWeights, category), c > 2)];
        c := c + 1;
      }
      warehouse := warehouse + [row];
      r := r + 1;
    }
  }

  lemma {:induction false} ZoneFromFirstMatch(rules: seq<LayoutRule>, k: nat, i: nat, r: int)
    requires k <= i < |rules| && rules[i].Contains(r)
    requires forall j :: k <= j < i ==> !rules[j].Contains(r)
    ensures ZoneFrom(rules, k, r) == (rules[i].category, rules[i].gender)
    decreases i - k
  {
    if k < i {
      ZoneFromFirstMatch(rules, k + 1, i, r);
    }
  }

  lemma {:induction false} ZoneFromNoMatch(rules: seq<LayoutRule>, k: nat, r: int)
    requires forall j :: k <= j < |rules| ==> !rules[j].Contains(r)
    ensures ZoneFrom(rules, k, r) == Fallback
    decreases |rules| - k
  {
    if k < |rules| {
      ZoneFromNoMatch(rules, k + 1, r);
    }
  }

  /**
   * First-match resolution: a row takes the zone of the first rule, in list
   * order, whose range contains it, and the fallback when no rule does.
   */
  lemma RowZoneIsFirstMatch(rules: seq<LayoutRule>, r: int)
    ensures (forall j :: 0 <= j < |rules| ==> !rules[j].Contains(r)) ==> RowZone(rules, r) == Fallback
    ensures forall i ::
      0 <= i < |rules| && rules[i].Contains(r) && (forall j :: 0 <= j < i ==> !rules[j].Contains(r)) ==>
        RowZone(rules, r) == (rules[i].category, rules[i].gender)
  {
    if forall j :: 0 <= j < |rules| ==> !rules[j].Contains(r) {
      ZoneFromNoMatch(rules, 0, r);
    }
    forall i | 0 <= i < |rules| && rules[i].Contains(r) && (forall j :: 0 <= j < i ==> !rules[j].Contains(r))
      ensures RowZone(rules, r) == (rules[i].category, rules[i].gender)
    {
      ZoneFromFirstMatch(rules, 0, i, r);
    }
  }

  /** A row's zone is the fallback or the zone of some rule that contains it. */
  lemma {:induction false} ZoneFromDrawnFromRules(rules: seq<LayoutRule>, k: nat, r: int)
    ensures ZoneFrom(rules, k, r) == Fallback ||
      exists i :: k <= i < |rules| && rules[i].Contains(r) && ZoneFrom(rules, k, r) == (rules[i].category, rules[i].gender)
    decreases |rules| - k
  {
    if k < |rules| && !rules[k].Contains(r) {
      ZoneFromDrawnFromRules(rules, k + 1, r);
    }
  }

  /** The set of ids carried by the bays of a well-shaped grid. */
  ghost function BayIds(g: Grid): set<int>
    requires WellShaped(g)
  {
    set r, c | 0 <= r < Rows && 0 <= c < Cols :: g[r][c].id
  }

  /** The row-major ids of a well-shaped grid are exactly 1..Rows*Cols, without duplicates. */
  lemma IdsArePermutation(g: Grid)
    requires WellShaped(g) && RowMajorIds(g)
    ensures forall r1, c1, r2, c2 ::
      InGrid(r1, c1) && InGrid(r2, c2) && g[r1][c1].id == g[r2][c2].id ==> r1 == r2 && c1 == c2
    ensures forall k :: k in BayIds(g) <==> 1 <= k <= Rows * Cols
  {
    forall k | 1 <= k <= Rows * Cols
      ensures k in BayIds(g)
    {
      var r, c := (k - 1) / Cols, (k - 1) % Cols;
      assert InGrid(r, c) && g[r][c].id == k;
    }
  }

  /** In the current layout rows 0-2 are uncategorized and rows 3-34 all belong to a rule. */
  lemma CurrentLayoutRows()
    ensures forall r :: 0 <= r < 3 ==> RowZone(CurrentRules, r) == Fallback
    ensures forall r :: 3 <= r < Rows ==> RowZone(CurrentRules, r) != Fallback
  {
    forall r | 0 <= r < 3
      ensures RowZone(CurrentRules, r) == Fallback
    {
      RowZoneIsFirstMatch(CurrentRules, r);
    }
    forall r | 3 <= r < Rows
      ensures RowZone(CurrentRules, r) != Fallback
    {
      ZoneFromDrawnFromRules(CurrentRules, 0, r);
    }
  }

  /** No rule of the current layout assigns "Lifestyle", so no row of it carries that category. */
  lemma CurrentLayoutLacksLifestyle()
    ensures forall r :: RowZone(CurrentRules, r).0 != "Lifestyle"
  {
    forall r ensures RowZone(CurrentRules, r).0 != "Lifestyle" {
      ZoneFromDrawnFromRules(CurrentRules, 0, r);
    }
  }

  /**
   * In the alternate layout the five Men rules already cover rows 0-34, so the
   * five Women rules after them never take effect.
   */
  lemma AlternateWomenRulesUnused()
    ensures forall r :: 0 <= r < Rows ==> RowZone(AlternateRules, r).1 == Men
  {
    forall r | 0 <= r < Rows
      ensures RowZone(AlternateRules, r).1 == Men
    {
      var i := r / 7;
      RowZoneIsFirstMatch(AlternateRules, r);
      assert AlternateRules[i].Contains(r) && AlternateRules[i].gender == Men;
    }
  }
}
