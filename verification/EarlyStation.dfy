/** Why stations must outlast the depot for search and validator to agree on all routes: a station that closes while the
    vehicle charges is lost to the search, which checks its due date after charging, and not to the validator, which
    checks it on arrival. */
module EarlyStation {
  import opened Options
  import opened EvrptwModel
  import opened ChargingSearch
  import opened RouteValidator
  import opened SearchAgreement

  function Position(v: nat): real { if v == 1 then 1.0 else if v == 2 then 2.0 else 0.0 }

  /** Depot, station and customer on a line; the station closes as the vehicle arrives, and only with its charge does the
      vehicle come back. */
  const TOWN := Instance([Node(Depot, 0.0, 0.0, 100.0, 0.0), Node(Station, 0.0, 0.0, 1.0, 0.0), Node(Customer, 0.0, 0.0, 100.0, 0.0)],
                         0, Vehicle(3.0, 0.0, 1.0, 1.0, 1.0),
                         (a: nat, b: nat) => if Position(a) >= Position(b) then Position(a) - Position(b) else Position(b) - Position(a))

  const TRIP := Problem(TOWN, [2], 0.0)

  lemma TripAdmitted()
    ensures WellFormed(TOWN) && Admitted(TRIP) && ValidProblem(TRIP) && !StationsOutlastDepot(TOWN)
  {
    assert Metric(TOWN.dist);
    assert TOWN.nodes[1].kind.Station? && TOWN.nodes[1].due < TOWN.nodes[0].due;
    assert TotalDemand(TOWN, [2]) == 0.0 by { assert [2][..0] == []; }
  }

  const HOME := Label(0, 0, 0.0, 3.0, 0.0, 0.0, 0.0, 0.0, [0])
  const OUT := Label(1, 2, 2.0, 1.0, 2.0, 2.0, 0.0, 0.0, [0, 2])

  /** From the depot only the customer can be reached, and from there nothing. */
  lemma Moves()
    ensures Initial(TRIP) == HOME && Extend(TRIP, HOME, 2, 1) == Some(OUT) && Extend(TRIP, HOME, 1, 0) == None
    ensures Extend(TRIP, OUT, 0, 1) == None && Extend(TRIP, OUT, 1, 1) == None
  {
    assert [0] + [2] == [0, 2];
  }

  lemma Offers(l: Label, dest: nat)
    requires l == HOME || l == OUT
    requires Offered(TRIP, l, (NextProgress(TRIP, l, dest), dest))
    ensures l == HOME ==> dest == 1 || dest == 2
    ensures l == OUT ==> dest == 0 || dest == 1
  {
    assert forall v :: IsStation(TOWN, v) ==> v == 1;
  }

  lemma {:induction false} Walks(path: seq<nat>)
    requires Runnable(TRIP) && Walk(TRIP, path).Some?
    ensures Walk(TRIP, path).value == HOME || Walk(TRIP, path).value == OUT
  {
    hide Extend, Offered, Complete;
    Moves();
    if |path| > 1 {
      var prefix, dest := path[..|path| - 1], path[|path| - 1];
      Walks(prefix);
      Offers(Walk(TRIP, prefix).value, dest);
    }
  }

  /** The drive over the station, leg by leg: charged and late at the station, home with an empty battery. */
  lemma Legs()
    ensures var d1 := DriveLeg(TOWN, 0.0, Begin(TOWN), 0, 1, 1);
      && d1.time == 2.0 && d1.battery == 3.0 && d1.violations == []
      && var d2 := DriveLeg(TOWN, 0.0, d1, 1, 2, 2);
      && d2.time == 3.0 && d2.battery == 2.0 && d2.violations == []
      && DriveLeg(TOWN, 0.0, d2, 2, 0, 3).violations == []
  {
    hide Energy, Travel;
    Distances();
    var d1 := DriveLeg(TOWN, 0.0, Begin(TOWN), 0, 1, 1);
    assert d1.time == 2.0 && d1.battery == 3.0 && d1.violations == [];
    var d2 := DriveLeg(TOWN, 0.0, d1, 1, 2, 2);
    assert d2.time == 3.0 && d2.battery == 2.0 && d2.violations == [];
  }

  lemma Distances()
    ensures Energy(TOWN, 0, 1) == 1.0 && Energy(TOWN, 1, 2) == 1.0 && Energy(TOWN, 2, 0) == 2.0
    ensures Travel(TOWN, 0, 1) == 1.0 && Travel(TOWN, 1, 2) == 1.0 && Travel(TOWN, 2, 0) == 2.0
  {
  }

  lemma Prefixes()
    ensures var r: seq<nat> := [0, 1, 2, 0];
      r[..3] == [0, 1, 2] && [0, 1, 2][..2] == [0, 1] && [0, 1][..1] == [0] && [0][..0] == [] && [2][..0] == [] && r[1..3] == [1, 2]
  {
  }

  lemma Driven()
    requires WellFormed(TOWN)
    ensures Known(TOWN, [0, 1, 2, 0]) && DriveOf(TOWN, 0.0, [0, 1, 2, 0]).violations == []
  {
    hide DriveLeg;
    Prefixes();
    Legs();
    assert DriveOf(TOWN, 0.0, [0]) == Begin(TOWN);
    assert DriveOf(TOWN, 0.0, [0, 1]) == DriveLeg(TOWN, 0.0, Begin(TOWN), 0, 1, 1);
    assert DriveOf(TOWN, 0.0, [0, 1, 2]) == DriveLeg(TOWN, 0.0, DriveOf(TOWN, 0.0, [0, 1]), 1, 2, 2);
    assert DriveOf(TOWN, 0.0, [0, 1, 2, 0]) == DriveLeg(TOWN, 0.0, DriveOf(TOWN, 0.0, [0, 1, 2]), 2, 0, 3);
  }

  lemma Ends()
    ensures EndsAtDepot(TOWN, [0, 1, 2, 0])
  {
  }

  lemma CustomersOn(route: seq<nat>, v: nat)
    ensures CustomersOf(TOWN, route + [v]) == CustomersOf(TOWN, route) + if v == 2 then [2] else []
  {
    assert (route + [v])[..|route|] == route;
  }

  lemma Shape()
    requires WellFormed(TOWN)
    ensures CustomersOf(TOWN, [0, 1, 2, 0]) == [2] && ShapeViolations(TOWN, 0.0, [0, 1, 2, 0]) == []
  {
    hide CustomersOf, EndsAtDepot;
    Prefixes();
    Ends();
    CustomersOn([], 0);
    CustomersOn([0], 1);
    CustomersOn([0, 1], 2);
    CustomersOn([0, 1, 2], 0);
    NoCustomers();
    assert [] + [0] == [0] && [0] + [1] == [0, 1] && [0, 1] + [2] == [0, 1, 2] && [0, 1, 2] + [0] == [0, 1, 2, 0];
    assert TotalDemand(TOWN, [2]) == 0.0;
  }

  lemma NoCustomers()
    ensures CustomersOf(TOWN, []) == []
  {
  }

  /** No pattern exists, and yet the validator accepts a route for the order. */
  lemma StationLost()
    ensures Admitted(TRIP) && ValidProblem(TRIP) && (forall q :: !Pattern(TRIP, q))
    ensures Known(TOWN, [0, 1, 2, 0]) && Accepted(TOWN, 0.0, [0, 1, 2, 0]) && CustomersOf(TOWN, [0, 1, 2, 0]) == TRIP.order
  {
    hide Walk, DriveOf, CustomersOf, ShapeViolations, Metric;
    TripAdmitted();
    Driven();
    Shape();
    forall q ensures !Pattern(TRIP, q) {
      if Walk(TRIP, q).Some? { Walks(q); }
    }
  }
}
