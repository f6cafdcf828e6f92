# Warehouse layout simulation, modelled in Dafny

This project models the core of a footwear-warehouse simulation
(`Warehousesim.py`). It has four parts:

- **Layout compiler** (`layout.dfy`, module `Layout`). `PopulateWarehouse`
  turns an ordered list of row-range rules into a 35 × 5 grid of bays.
  Each row takes the category and gender of the *first* rule whose range
  contains it, or `Uncategorized`/`Unspecified` when no rule does. Every
  bay gets the id `r * 5 + c + 1`, a ladder flag `c > 2` and a sales weight.
  The two layouts of the source (`CurrentRules`, `AlternateRules`) are
  constants.
- **Routing** (`routing.dfy`, module `Routing`, and
  `Picker.Employee.FindFootwear`). For every bay whose type equals the
  request and every entry point, the source scores the Manhattan distance.
  The score is multiplied by 1.15 for entry point 0 and gets 5 added for a
  ladder bay. The first strict minimum in row-major, then entry-point order
  wins, and `(0, 0)` is returned when no bay matches. Scores are kept as
  integers scaled by 20 (23·d, 20·d, +100). `Score` is proved equal to 20
  times the exact decimal distance.
- **Picker** (`picker.dfy`, module `Picker`). Class `Employee` has the fields
  `capacity`, `warehouse`, `currentLoad` and `trips`. `FetchFootwear`
  updates them as the source does, and is proved against the pure functions
  `Step`, `Run` and `Fetch`. The lemmas give the closed form: a call returns
  `ceil((carried-over load + items) / 4)` trips, the load never exceeds 4,
  and the trip counter never decreases during a call.
- **Driver** (`simulation.dfy`, module `Simulation`). `SimulateAndCompare`
  gets the request lists as a parameter. For each list it builds a fresh
  grid and employee per layout and sums the trips. Its contract shows that
  both totals equal the sum of `ceil(|list| / 4)`. So the two layouts always
  report the same number of trips: the position found for an item never
  affects the trip count. With ten-item lists each total is 3 per
  simulation.

Where the design description and the code differ, the model follows the
code:

- The description asks for an explicit error when the trial count is not
  positive. The code just divides by `num_simulations`. The averages are not
  modelled (see below), so neither behaviour appears here.
- The description lists genders Men/Women/Unisex. The code's fallback
  also uses `Unspecified`, so `Gender` has all four.
- The seed is fixed inside the driver rather than passed in. The random
  draw is replaced by the `requests` parameter.

## Model

| member | source | states |
|---|---|---|
| `Layout.PopulateWarehouse` | Warehousesim.py:39-59 | The grid has 35 rows of 5 bays. Bay (r, c) carries row r's first-match zone, the id r*5+c+1, the sales weight of its category, and needs a ladder exactly when c > 2. |
| `Layout.WeightOf` | Warehousesim.py:54 | A bay's weight is the map's entry for its category when a map is supplied and has that key, and 1 otherwise (including when no map is passed). |
| `Layout.RowZoneIsFirstMatch` | Warehousesim.py:43-48 | A row gets the category and gender of the first rule, in list order, whose range contains it. When no rule contains it, it gets Uncategorized/Unspecified. |
| `Layout.ZoneFromDrawnFromRules` | Warehousesim.py:43-48 | A row's zone is either the fallback or the zone of a rule whose range contains the row. |
| `Layout.IdsArePermutation` | Warehousesim.py:41-53 | Row-major ids are pairwise distinct, and the set of ids is exactly 1..175. |
| `Layout.CurrentLayoutRows` | Warehousesim.py:12-22 | In the current layout rows 0-2 are uncategorized, and every row from 3 to 34 is covered by a rule. |
| `Layout.CurrentLayoutLacksLifestyle` | Warehousesim.py:12-22 | No row of the current layout has the category "Lifestyle". |
| `Layout.AlternateWomenRulesUnused` | Warehousesim.py:25-35 | In the alternate layout every row 0-34 takes a Men zone, so the Women rules never take effect. |
| `Routing.Score` | Warehousesim.py:92-96 | The integer score is exactly 20 times the source's distance in decimal arithmetic: the Manhattan distance, times 1.15 for entry point 0, plus 5 for a ladder. |
| `Routing.LadderPenalty` | Warehousesim.py:95-96 | A ladder adds exactly the flat penalty, so a ladder bay always scores strictly more than the same bay without a ladder. |
| `Routing.FirstBestUnique` | Warehousesim.py:97-99 | Under strict-less-than tie-breaking, at most one (bay, entry point) pair is the first best, so the choice is determined. |
| `Routing.GenderNotConsulted` | Warehousesim.py:88-99 | Grids that differ only in gender have the same matches and the same first-best pair. |
| `Picker.Employee.constructor` | Warehousesim.py:63-68 | A new employee has capacity 4, an empty load, zero trips and the given grid. |
| `Picker.Employee.FindFootwear` | Warehousesim.py:85-103 | Returns (0, 0) when no bay has the requested type. Otherwise it returns a matching bay whose score, for some entry point, is no greater than any other pair's score, and strictly smaller than every pair scanned before it. |
| `Picker.Employee.FetchFootwear` | Warehousesim.py:70-83 | Trips restart at 0 but the load is carried over. Each item is added to the load, or (at a full load) charges a trip and starts a new load. A non-empty final load costs one more trip. The load stays at most 4. |
| `Picker.RunClosedForm` | Warehousesim.py:72-80 | After m boxes (carried-over load plus items), the overflow trips are (m-1)/4 and (m-1)%4+1 boxes are in hand. |
| `Picker.LoadBoundedThroughout` | Warehousesim.py:76-80 | After every prefix of a request the load holds at most 4 items. |
| `Picker.TripsNeverDecrease` | Warehousesim.py:76-80 | The trip counter after a longer prefix of a request is never smaller than after a shorter one. |
| `Picker.FetchClosedForm` | Warehousesim.py:70-83 | A call returns ceil((carried-over load + items)/4) trips. The load left in hand has at most 4 items, and it is non-empty if anything was handled. |
| `Picker.FreshFetchTrips` | Warehousesim.py:70-83 | From an empty load, n items give ceil(n/4) trips: 0 give 0, 4 give 1, 5 give 2, 10 give 3. |
| `Simulation.SimulateAndCompare` | Warehousesim.py:116-132 | Both totals equal the sum of ceil(|list|/4) over the request lists, so the current and alternate totals are equal. |
| `Simulation.TenItemRequests` | Warehousesim.py:119-120 | With ten-item request lists, each total is 3 times the number of simulations. |
| `Simulation.LocateLifestyleInCurrentLayout` | Warehousesim.py:100-103 | Routing "Lifestyle" on the current layout's grid falls back to (0, 0). |

## Left out

- `random.seed(42)` and `random.choice` (Warehousesim.py:107, 120) are library behaviour. The request lists are a parameter of `SimulateAndCompare`, and `num_simulations` is their number.
- The float division for the averages, the `print` calls and the module-level call (Warehousesim.py:134-141) are floating-point output and I/O.
- Routing.Score: it is exact decimal arithmetic, not IEEE doubles. The binary value of 1.15 can break a tie between scores that are equal in exact arithmetic differently, so ties that depend on rounding are not claimed to match the source bit-for-bit.
- The employee's `name` field is not modelled, because nothing reads it. The sales weight is grid data only, because routing never consults it.
- The source stores `capacity` as an ordinary attribute that other code could reassign. Here it is a constant 4 (`Employee.Valid`).
- `find_footwear` never returns `None`, so the `position is not None` test in `fetch_footwear` is always true. The model loads every item, and ignores the position the way the source ignores `row, col`.
- Rule ranges are modelled as step-1 half-open intervals `lo <= r < hi`, which are the only ranges the layouts use. Categories are strings, so a request such as "Uncategorized" matches uncategorized bays, as in the source.
