/** `mapUtils`: the nearest station to a coordinate pair and the fare table.
    The great-circle distance itself (`calculateDistance`) is a parameter:
    `None` stands for a distance that is NaN or Infinity, which no
    comparison `distance < minDistance` accepts. */
module MapUtils {
  import opened ExtReal
  import opened Results

  /** An entry of the station list handed to `findNearestNode`. */
  datatype NodeRef = NodeRef(name: string, lat: real, lng: real)

  datatype Nearest = Nearest(nodeName: string, distance: real, latitude: real, longitude: real)

  /** The distance from the query point to station `i`. */
  function DistTo<C>(lat: C, lng: C, nodes: seq<NodeRef>, dist: (C, C, real, real) -> Option<real>, i: nat): Option<real>
    requires i < |nodes|
  {
    dist(lat, lng, nodes[i].lat, nodes[i].lng)
  }

  /** Station `i` has a finite distance, no station is closer, and every
      earlier station is strictly farther: the first of the closest. */
  ghost predicate FirstNearest<C>(lat: C, lng: C, nodes: seq<NodeRef>, dist: (C, C, real, real) -> Option<real>, i: nat) {
    && i < |nodes|
    && DistTo(lat, lng, nodes, dist, i).Some?
    && (forall j :: 0 <= j < |nodes| && DistTo(lat, lng, nodes, dist, j).Some? ==>
          DistTo(lat, lng, nodes, dist, i).value <= DistTo(lat, lng, nodes, dist, j).value)
    && (forall j :: 0 <= j < i && DistTo(lat, lng, nodes, dist, j).Some? ==>
          DistTo(lat, lng, nodes, dist, i).value < DistTo(lat, lng, nodes, dist, j).value)
  }

  /** `findNearestNode(lat, lng, nodes)`: `null` when no station has a
      finite distance (in particular for an empty list); otherwise the first
      station of least distance, with that distance and its coordinates.
      The unused `maxDistance` argument is not modelled. */
  method FindNearestNode<C>(lat: C, lng: C, nodes: seq<NodeRef>, dist: (C, C, real, real) -> Option<real>)
    returns (nearest: Option<Nearest>)
    ensures nearest.None? <==> forall j :: 0 <= j < |nodes| ==> DistTo(lat, lng, nodes, dist, j).None?
    ensures nearest.Some? ==> exists i: nat :: (
      && FirstNearest(lat, lng, nodes, dist, i)
      && nearest.value == Nearest(nodes[i].name, DistTo(lat, lng, nodes, dist, i).value, nodes[i].lat, nodes[i].lng))
  {
    nearest := None;
    var minDistance := Inf;
    ghost var best := 0;
    var i := 0;
    while i < |nodes|
      invariant i <= |nodes|
      invariant nearest.None? <==> minDistance == Inf
      invariant nearest.None? <==> forall j :: 0 <= j < i ==> DistTo(lat, lng, nodes, dist, j).None?
      invariant nearest.Some? ==>
        && best < i && DistTo(lat, lng, nodes, dist, best).Some?
        && minDistance == Fin(DistTo(lat, lng, nodes, dist, best).value)
        && nearest.value == Nearest(nodes[best].name, minDistance.val, nodes[best].lat, nodes[best].lng)
        && (forall j :: 0 <= j < i && DistTo(lat, lng, nodes, dist, j).Some? ==>
              minDistance.val <= DistTo(lat, lng, nodes, dist, j).value)
        && (forall j :: 0 <= j < best && DistTo(lat, lng, nodes, dist, j).Some? ==>
              minDistance.val < DistTo(lat, lng, nodes, dist, j).value)
    {
      var distance := dist(lat, lng, nodes[i].lat, nodes[i].lng);
      assert distance == DistTo(lat, lng, nodes, dist, i);
      if distance.Some? && Lt(Fin(distance.value), minDistance) {
        minDistance := Fin(distance.value);
        nearest := Some(Nearest(nodes[i].name, distance.value, nodes[i].lat, nodes[i].lng));
        best := i;
      }
      i := i + 1;
    }
    if nearest.Some? {
      assert FirstNearest(lat, lng, nodes, dist, best);
    }
  }

  /** Two stations that are both first-nearest are the same station: the
      result of `findNearestNode` is determined by its inputs. */
  lemma FirstNearestUnique<C>(lat: C, lng: C, nodes: seq<NodeRef>, dist: (C, C, real, real) -> Option<real>, i: nat, j: nat)
    requires FirstNearest(lat, lng, nodes, dist, i) && FirstNearest(lat, lng, nodes, dist, j)
    ensures i == j
  {
  }

  // ---------------------------------------------------------------------
  // calculateFare

  /** A row of the rate structure. */
  datatype Rate = Rate(baseFare: real, perKmRate: real, minimumFare: real)

  const Bike := Rate(10.0, 5.0, 25.0)
  const Auto := Rate(15.0, 7.0, 30.0)
  const CabEconomy := Rate(20.0, 10.0, 50.0)
  const CabPremium := Rate(30.0, 15.0, 70.0)

  datatype Fares = Fares(bike: real, auto: real, cabEconomy: real, cabPremium: real)

  /** `fareCalculation`: the metered fare, but never below the minimum. */
  function FareFor(r: Rate, distance: real): (fare: real)
    ensures fare >= r.minimumFare && fare >= r.baseFare + distance * r.perKmRate
    ensures fare == r.minimumFare || fare == r.baseFare + distance * r.perKmRate
  {
    var calculated := r.baseFare + distance * r.perKmRate;
    if calculated < r.minimumFare then r.minimumFare else calculated
  }

  /** `calculateFare(distance)`: the four fares; each is at least its
      minimum, and the classes never get cheaper from bike to premium cab,
      whatever the distance. */
  function CalculateFare(distance: real): (f: Fares)
    ensures f.bike >= Bike.minimumFare && f.auto >= Auto.minimumFare
    ensures f.cabEconomy >= CabEconomy.minimumFare && f.cabPremium >= CabPremium.minimumFare
    ensures f.bike <= f.auto <= f.cabEconomy <= f.cabPremium
  {
    Fares(FareFor(Bike, distance), FareFor(Auto, distance), FareFor(CabEconomy, distance), FareFor(CabPremium, distance))
  }

  /** The minimum is charged exactly up to the distance where the metered
      fare reaches it. */
  lemma MinimumUntil(r: Rate, distance: real)
    ensures FareFor(r, distance) == r.minimumFare <==> distance * r.perKmRate <= r.minimumFare - r.baseFare
  {
  }

  /** Every fare grows with the distance. */
  lemma FareMonotone(d1: real, d2: real)
    requires d1 <= d2
    ensures CalculateFare(d1).bike <= CalculateFare(d2).bike
    ensures CalculateFare(d1).auto <= CalculateFare(d2).auto
    ensures CalculateFare(d1).cabEconomy <= CalculateFare(d2).cabEconomy
    ensures CalculateFare(d1).cabPremium <= CalculateFare(d2).cabPremium
  {
  }

  /** Up to 15/7 km every class charges its minimum fare. */
  lemma ShortTripsPayMinimum(distance: real)
    requires distance * 7.0 <= 15.0
    ensures CalculateFare(distance) == Fares(25.0, 30.0, 50.0, 70.0)
  {
  }
}
