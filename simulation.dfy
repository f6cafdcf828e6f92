/**
 * The comparison driver: every request list is replayed against a fresh
 * grid and a fresh employee for each of the two layouts, and the trips are
 * summed per layout. The random draw of the lists is not part of the model:
 * the lists are a parameter.
 */
module Simulation {
  import opened Layout
  import opened Routing
  import opened Picker

  /** The sales weights the driver passes to the layout compiler. */
  const SalesWeights: map<string, int> :=
    map["Lifestyle" := 3, "RoadRunners" := 5, "TrailRunners" := 4, "LowHikers" := 2, "MidHikers" := 1]

  /** ceil(|q| / Capacity) summed over the request lists. */
  function CeilTrips(requests: seq<seq<string>>): nat
    decreases |requests|
  {
    if requests == [] then 0
    else CeilTrips(requests[..|requests| - 1]) + (|requests[|requests| - 1]| + Capacity - 1) / Capacity
  }

  /**
   * Sums the trips of each layout over all request lists. Each fresh
   * employee returns ceil(|q| / Capacity) trips whatever the layout, so the
   * two totals always agree.
   */
  method SimulateAndCompare(requests: seq<seq<string>>) returns (totalCurrent: nat, totalAlternate: nat)
    ensures totalCurrent == CeilTrips(requests)
    ensures totalAlternate == totalCurrent
  {
    totalCurrent, totalAlternate := 0, 0;
    var sim := 0;
    while sim < |requests|
      invariant 0 <= sim <= |requests|
      invariant totalCurrent == CeilTrips(requests[..sim])
      invariant totalAlternate == CeilTrips(requests[..sim])
    {
      var footwearList := requests[sim];
      FreshFetchTrips(footwearList);

      var warehouseCurrent := PopulateWarehouse(CurrentRules, Some(SalesWeights));
      var employeeCurrent := new Employee(warehouseCurrent);
      var tripsCurrent := employeeCurrent.FetchFootwear(footwearList);
      totalCurrent := totalCurrent + tripsCurrent;

      var warehouseAlternate := PopulateWarehouse(AlternateRules, Some(SalesWeights));
      var employeeAlternate := new Employee(warehouseAlternate);
      var tripsAlternate := employeeAlternate.FetchFootwear(footwearList);
      totalAlternate := totalAlternate + tripsAlternate;

      assert requests[..sim + 1][..sim] == requests[..sim];
      sim := sim + 1;
    }
    assert requests[..sim] == requests;
  }

  /** With the driver's request lists of ten items, each total is three trips per simulation. */
  lemma {:induction false} TenItemRequests(requests: seq<seq<string>>)
    requires forall q :: q in requests ==> |q| == 10
    ensures CeilTrips(requests) == 3 * |requests|
    decreases |requests|
  {
    if requests != [] {
      var init := requests[..|requests| - 1];
      assert forall q :: q in init ==> q in requests;
      assert requests[|requests| - 1] in requests;
      TenItemRequests(init);
    }
  }

  /**
   * "Lifestyle" is no bay's type under the current layout, so routing it
   * falls back to the first bay.
   */
  method LocateLifestyleInCurrentLayout() returns (position: (int, int))
    ensures position == (0, 0)
  {
    var warehouse := PopulateWarehouse(CurrentRules, Some(SalesWeights));
    var employee := new Employee(warehouse);
    CurrentLayoutLacksLifestyle();
    position := employee.FindFootwear("Lifestyle");
  }
}
