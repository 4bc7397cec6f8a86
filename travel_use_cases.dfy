/**
 * The travel use cases: CreateTravel
 * (src/application/use-cases/travel/create-travel.ts) and DeleteTravel
 * (src/application/use-cases/travel/delete-travel.ts).
 *
 * The route service is a function parameter and "now" an integer-ms
 * parameter; the store calls are the in-memory stores'.
 */
module TravelUseCases {
  import opened Nullable
  import opened Either
  import opened Errors
  import opened Time
  import opened TravelEntity
  import opened TravelRepository
  import opened BusStationRepository

  /** The route service's first route: its duration in seconds (`parseInt` of `"<n>s"`) and its distance in km. */
  datatype Route = Route(durationSeconds: int, distanceKm: real)

  /** What CreateTravel works out for a request that passes every check. */
  datatype TravelPlan = TravelPlan(arrivalDate: int, duration: Duration, distanceKm: real)

  const SameStationMessage := "O local de destino não pode ser o mesmo que o local de saída"
  const PastDateMessage := "A data informada é anterior ao dia de hoje"
  const NoRouteMessage := "Local repetido"

  /** The arrival instant: the departure plus the route's duration converted to milliseconds. */
  function ArrivalTime(departure: int, durationSeconds: int): int {
    departure + durationSeconds * 1000
  }

  /** Whole minutes of q minutes plus s milliseconds (s below a minute) are q. */
  lemma WholeMinutes(q: nat, s: int)
    requires 0 <= s < MsPerMinute
    ensures (q * MsPerMinute + s) / MsPerMinute == q
  {
    var x := q * MsPerMinute + s;
    assert x == (x / MsPerMinute) * MsPerMinute + x % MsPerMinute;
    assert (x / MsPerMinute - q) * MsPerMinute == s - x % MsPerMinute;
  }

  /**
   * The `"<h>h <m>m"` duration between two instants: whole hours, then the
   * whole minutes left over. Minutes stay below 60, and together they give
   * the whole minutes between the instants.
   */
  function DurationBetween(departure: int, arrival: int): (d: Duration)
    ensures d.minutes < 60
    ensures d.hours * 60 + d.minutes == Abs(departure - arrival) / MsPerMinute
  {
    var diff := Abs(departure - arrival);
    var hours := diff / MsPerHour;
    var rest := diff % MsPerHour;
    var minutes := rest / MsPerMinute;
    assert rest == minutes * MsPerMinute + rest % MsPerMinute;
    assert diff == hours * MsPerHour + rest;
    assert diff == (hours * 60 + minutes) * MsPerMinute + rest % MsPerMinute;
    WholeMinutes(hours * 60 + minutes, rest % MsPerMinute);
    Duration(hours, minutes)
  }

  /**
   * The checks of CreateTravel in their order (equal station ids, departure
   * station, arrival station, departure in the future, a route), then the
   * arrival time and duration of the travel to create. The route service
   * is asked with the two station names and the departure time.
   */
  function CreateTravelCheck(stations: InMemoryBusStationRepository, now: int,
                             routes: (string, string, int) -> Option<Route>,
                             departureDate: int, departureId: int, arrivalId: int)
    : Either<Error, TravelPlan>
    reads stations
  {
    if departureId == arrivalId then Failure(Conflict(SameStationMessage))
    else
      match stations.FindById(departureId)
      case None => Failure(NotFound(NoStationMessage(departureId)))
      case Some(origin) =>
        match stations.FindById(arrivalId)
        case None => Failure(NotFound(NoStationMessage(arrivalId)))
        case Some(destination) =>
          if !(departureDate > now) then Failure(BadRequest(PastDateMessage))
          else
            match routes(origin.name, destination.name, departureDate)
            case None => Failure(BadRequest(NoRouteMessage))
            case Some(route) =>
              var arrival := ArrivalTime(departureDate, route.durationSeconds);
              Success(TravelPlan(arrival, DurationBetween(departureDate, arrival), route.distanceKm))
  }

  /**
   * The outcome of CreateTravelCheck in full: which failure each request
   * meets, in the order the checks run, and what a passing request yields.
   */
  lemma CreateTravelOutcomes(stations: InMemoryBusStationRepository, now: int,
                             routes: (string, string, int) -> Option<Route>,
                             departureDate: int, departureId: int, arrivalId: int)
    ensures var r := CreateTravelCheck(stations, now, routes, departureDate, departureId, arrivalId);
      var origin := stations.FindById(departureId);
      var destination := stations.FindById(arrivalId);
      && (departureId == arrivalId ==> r == Failure(Conflict(SameStationMessage)))
      && (departureId != arrivalId && origin.None? ==>
            r == Failure(NotFound(NoStationMessage(departureId))))
      && (departureId != arrivalId && origin.Some? && destination.None? ==>
            r == Failure(NotFound(NoStationMessage(arrivalId))))
      && (departureId != arrivalId && origin.Some? && destination.Some? && departureDate <= now ==>
            r == Failure(BadRequest(PastDateMessage)))
      && (departureId != arrivalId && origin.Some? && destination.Some? && departureDate > now ==>
            var route := routes(origin.value.name, destination.value.name, departureDate);
            && (route.None? ==> r == Failure(BadRequest(NoRouteMessage)))
            && (route.Some? ==>
                 && r.Success?
                 && r.value.arrivalDate == departureDate + route.value.durationSeconds * 1000
                 && r.value.distanceKm == route.value.distanceKm
                 && r.value.duration.minutes < 60
                 && r.value.duration.hours * 60 + r.value.duration.minutes
                      == Abs(route.value.durationSeconds * 1000) / MsPerMinute))
  {
  }

  /** Equal station ids are a Conflict whatever else the request holds, the store and the route service. */
  lemma SameStationsAlwaysConflict(stations: InMemoryBusStationRepository, now: int,
                                   routes: (string, string, int) -> Option<Route>,
                                   departureDate: int, stationId: int)
    ensures CreateTravelCheck(stations, now, routes, departureDate, stationId, stationId)
         == Failure(Conflict(SameStationMessage))
  {
  }

  /** A departure that is not strictly after now never passes, whatever the route service answers. */
  lemma PastDepartureNeverPasses(stations: InMemoryBusStationRepository, now: int,
                                 routes: (string, string, int) -> Option<Route>,
                                 departureDate: int, departureId: int, arrivalId: int)
    requires departureDate <= now
    ensures CreateTravelCheck(stations, now, routes, departureDate, departureId, arrivalId).Failure?
  {
  }

  /**
   * `CreateTravel.execute`: on a failed check nothing is stored; otherwise
   * exactly one new travel is appended, built by `Travel.create` (no id
   * before the store gives it one, the fresh seat list 0 .. 46).
   */
  method CreateTravel(travels: InMemoryTravelRepository, stations: InMemoryBusStationRepository,
                      now: int, routes: (string, string, int) -> Option<Route>,
                      departureDate: int, busSeat: string, price: real,
                      departureId: int, arrivalId: int)
    returns (r: Either<Error, Travel>)
    modifies travels
    ensures var check := CreateTravelCheck(stations, now, routes, departureDate, departureId, arrivalId);
      && (check.Failure? ==> r == Failure(check.error) && travels.travels == old(travels.travels))
      && (check.Success? ==>
            && r.Success? && fresh(r.value)
            && travels.travels == old(travels.travels) + [r.value]
            && r.value.id.Some? && 0 <= r.value.id.value <= 1000
            && r.value.availableSeats == AllSeats()
            && r.value.departureDate == departureDate
            && r.value.arrivalDate == check.value.arrivalDate
            && r.value.duration == check.value.duration
            && r.value.distanceKm == check.value.distanceKm
            && r.value.busSeat == busSeat && r.value.price == price
            && r.value.departureStationId == departureId
            && r.value.arrivalStationId == arrivalId)
    ensures forall t :: t in old(travels.travels) ==> t.availableSeats == old(t.availableSeats) && t.id == old(t.id)
  {
    var check := CreateTravelCheck(stations, now, routes, departureDate, departureId, arrivalId);
    if check.Failure? {
      return Failure(check.error);
    }
    var plan := check.value;
    var created := new Travel.Create(departureDate, plan.arrivalDate, busSeat, price, plan.distanceKm,
                                     plan.duration, departureId, arrivalId);
    var stored := travels.Create(created);
    r := Success(stored);
  }

  /**
   * `DeleteTravel.execute`: an absent id is NotFound and the store is left
   * alone; a present id removes exactly its first match, keeps the rest in
   * order, and returns the removed travel. The store's remove-the-last path
   * for absent ids is never reached.
   */
  method DeleteTravel(travels: InMemoryTravelRepository, id: int) returns (r: Either<Error, Travel>)
    modifies travels
    ensures old(travels.IndexOfId(id)) == -1 ==>
      r == Failure(NotFound(NoTravelMessage(id))) && travels.travels == old(travels.travels)
    ensures old(travels.IndexOfId(id)) >= 0 ==>
      var k := old(travels.IndexOfId(id));
      && r == Success(old(travels.travels)[k])
      && r.value.id == Some(id)
      && travels.travels == old(travels.travels)[..k] + old(travels.travels)[k + 1..]
  {
    var travelExists := travels.FindById(id);
    if travelExists == null {
      return Failure(NotFound(NoTravelMessage(id)));
    }
    var removed := travels.Delete(id);
    r := Success(removed);
  }
}
