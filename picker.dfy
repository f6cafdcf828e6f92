/**
 * The picker: an employee holding a grid, a load of at most four boxes and
 * a trip counter. Fetching a request list charges a trip whenever an item
 * arrives at a full load, and once more at the end if the load is non-empty.
 */
module Picker {
  import opened Layout
  import opened Routing

  /** The number of boxes an employee can carry. */
  const Capacity: nat := 4

  /** The fields the fetch loop updates: the boxes in hand and the trips so far. */
  datatype PickerState = PickerState(load: seq<string>, trips: nat)

  /** One item of a request: add it to the load, or deliver a full load and start a new one. */
  function Step(s: PickerState, item: string): PickerState {
    if |s.load| < Capacity then PickerState(s.load + [item], s.trips)
    else PickerState([item], s.trips + 1)
  }

  /** The state after the items, in order. */
  function Run(s: PickerState, items: seq<string>): PickerState
    decreases |items|
  {
    if items == [] then s else Step(Run(s, items[..|items| - 1]), items[|items| - 1])
  }

  /**
   * One fetch call: the trip counter restarts at 0 but the load is carried
   * over; a non-empty load at the end costs one more trip and stays in hand.
   */
  function Fetch(load: seq<string>, items: seq<string>): PickerState {
    var s := Run(PickerState(load, 0), items);
    PickerState(s.load, if |s.load| > 0 then s.trips + 1 else s.trips)
  }

  /**
   * After m = |load| + |items| boxes have passed through the hands, the
   * overflow trips are (m - 1) / Capacity and (m - 1) % Capacity + 1 boxes
   * are held, so the load never exceeds Capacity.
   */
  lemma {:induction false} RunClosedForm(load: seq<string>, trips: nat, items: seq<string>)
    requires |load| <= Capacity
    ensures var s := Run(PickerState(load, trips), items); var m := |load| + |items|;
      && (m == 0 ==> s == PickerState([], trips))
      && (m > 0 ==> s.trips == trips + (m - 1) / Capacity && |s.load| == (m - 1) % Capacity + 1)
    decreases |items|
  {
    if items != [] {
      RunClosedForm(load, trips, items[..|items| - 1]);
    }
  }

  /** The load stays within capacity after every item of a request. */
  lemma LoadBoundedThroughout(load: seq<string>, items: seq<string>, i: nat)
    requires |load| <= Capacity && i <= |items|
    ensures |Run(PickerState(load, 0), items[..i]).load| <= Capacity
  {
    RunClosedForm(load, 0, items[..i]);
  }

  /** The trip counter never decreases while a request is processed. */
  lemma {:induction false} TripsNeverDecrease(s: PickerState, items: seq<string>, i: nat, j: nat)
    requires i <= j <= |items|
    ensures Run(s, items[..i]).trips <= Run(s, items[..j]).trips
    decreases j - i
  {
    if i < j {
      TripsNeverDecrease(s, items, i, j - 1);
      assert items[..j][..j - 1] == items[..j - 1];
    }
  }

  /**
   * A fetch call returns ceil((|load| + |items|) / Capacity) trips: the
   * boxes carried over from an earlier call are counted again.
   */
  lemma FetchClosedForm(load: seq<string>, items: seq<string>)
    requires |load| <= Capacity
    ensures Fetch(load, items).trips == (|load| + |items| + Capacity - 1) / Capacity
    ensures |Fetch(load, items).load| <= Capacity
    ensures |load| + |items| > 0 ==> |Fetch(load, items).load| > 0
  {
    RunClosedForm(load, 0, items);
  }

  /** From an empty load: 0 items give 0 trips, 4 give 1, 5 give 2, 10 give 3. */
  lemma FreshFetchTrips(items: seq<string>)
    ensures Fetch([], items).trips == (|items| + Capacity - 1) / Capacity
    ensures |items| == 0 ==> Fetch([], items).trips == 0
    ensures |items| == 4 ==> Fetch([], items).trips == 1
    ensures |items| == 5 ==> Fetch([], items).trips == 2
    ensures |items| == 10 ==> Fetch([], items).trips == 3
  {
    FetchClosedForm([], items);
  }

  /** Bookkeeping of the routing loop: all pairs before (R, C, E) in scan order are done. */
  ghost predicate ScannedUpTo(g: Grid, footwear: string, R: int, C: int, E: int,
                              found: bool, minScore: int, best: (int, int), bestEntry: int)
  {
    && (!found ==> forall r, c, e :: Candidate(g, footwear, r, c, e) ==> !Before(r, c, e, R, C, E))
    && (found ==>
         && Candidate(g, footwear, best.0, best.1, bestEntry)
         && Before(best.0, best.1, bestEntry, R, C, E)
         && minScore == PairScore(g, best.0, best.1, bestEntry)
         && (forall r, c, e :: Candidate(g, footwear, r, c, e) && Before(r, c, e, R, C, E) ==>
               minScore <= PairScore(g, r, c, e))
         && (forall r, c, e :: Candidate(g, footwear, r, c, e) && Before(r, c, e, best.0, best.1, bestEntry) ==>
               minScore < PairScore(g, r, c, e)))
  }

  class Employee {
    const capacity: nat
    const warehouse: Grid
    var currentLoad: seq<string>
    var trips: nat

    ghost predicate Valid()
      reads this
    {
      capacity == Capacity && |currentLoad| <= capacity
    }

    constructor (warehouse: Grid)
      ensures Valid()
      ensures this.warehouse == warehouse && currentLoad == [] && trips == 0
    {
      capacity := Capacity;
      this.warehouse := warehouse;
      currentLoad := [];
      trips := 0;
    }

    /**
     * Fetches the items in order and returns the trips of this call. The
     * position found for each item is never absent, so every item is loaded.
     */
    method FetchFootwear(footwearList: seq<string>) returns (tripsTaken: nat)
      requires Valid()
      modifies this
      ensures Valid()
      ensures currentLoad == Fetch(old(currentLoad), footwearList).load
      ensures trips == tripsTaken == Fetch(old(currentLoad), footwearList).trips
    {
      ghost var start := PickerState(currentLoad, 0);
      trips := 0;
      var i := 0;
      while i < |footwearList|
        invariant 0 <= i <= |footwearList|
        invariant Valid()
        invariant PickerState(currentLoad, trips) == Run(start, footwearList[..i])
      {
        var footwear := footwearList[i];
        var position := FindFootwear(footwear);
        if |currentLoad| < capacity {
          currentLoad := currentLoad + [footwear];
        } else {
          trips := trips + 1;
          currentLoad := [footwear];
        }
        assert footwearList[..i + 1][..i] == footwearList[..i];
        i := i + 1;
      }
      assert footwearList[..i] == footwearList;
      if |currentLoad| > 0 {
        trips := trips + 1;
      }
      tripsTaken := trips;
    }

    /**
     * Scans the grid row by row, bay by bay, entry point by entry point, and
     * keeps the first pair with a strictly smaller score; (0, 0) when no bay
     * has the requested type.
     */
    method FindFootwear(footwear: string) returns (position: (int, int))
      ensures !AnyMatch(warehouse, footwear) ==> position == (0, 0)
      ensures AnyMatch(warehouse, footwear) ==>
        exists e :: IsFirstBest(warehouse, footwear, position.0, position.1, e)
    {
      var found := false;  // a best position has been recorded
      var minScore := 0;
      var best := (0, 0);
      ghost var bestEntry := 0;
      var r := 0;
      while r < |warehouse|
        invariant 0 <= r <= |warehouse|
        invariant ScannedUpTo(warehouse, footwear, r, 0, 0, found, minScore, best, bestEntry)
      {
        var c := 0;
        while c < |warehouse[r]|
          invariant 0 <= c <= |warehouse[r]|
          invariant ScannedUpTo(warehouse, footwear, r, c, 0, found, minScore, best, bestEntry)
        {
          if warehouse[r][c].category == footwear {
            var e := 0;
            while e < |EntryPoints|
              invariant 0 <= e <= |EntryPoints|
              invariant ScannedUpTo(warehouse, footwear, r, c, e, found, minScore, best, bestEntry)
            {
              var score := Score(e, Manhattan(EntryPoints[e], r, c), warehouse[r][c].requiresLadder);
              if !found || score < minScore {
                found, minScore, best, bestEntry := true, score, (r, c), e;
              }
              e := e + 1;
            }
          }
          c := c + 1;
        }
        r := r + 1;
      }
      if !found {
        forall r', c' | 0 <= r' < |warehouse| && 0 <= c' < |warehouse[r']|
          ensures warehouse[r'][c'].category != footwear
        {
          assert Before(r', c', 0, |warehouse|, 0, 0) && |EntryPoints| == 2;
        }
        assert !AnyMatch(warehouse, footwear);
        best := (0, 0);
      } else {
        assert IsFirstBest(warehouse, footwear, best.0, best.1, bestEntry);
      }
      position := best;
    }
  }
}
