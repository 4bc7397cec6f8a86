/**
 * The bus-station use cases: CreateBusStation
 * (src/application/use-cases/bus-station/create-bus-station.ts) and
 * DeleteBusStation (src/application/use-cases/bus-station/delete-bus-station.ts).
 * The place search is a function parameter.
 */
module BusStationUseCases {
  import opened Nullable
  import opened Either
  import opened Errors
  import opened BusStationEntity
  import opened BusStationRepository

  /** The place search's first place: its type tags and its display name. */
  datatype Place = Place(types: seq<string>, displayName: string)

  const AlreadyRegisteredMessage := "Essa rodoviária já está cadastrada"
  const NotAStationMessage := "O local pesquisado não é uma rodoviária"

  function NoPlaceMessage(name: string): string {
    "Nenhuma rodoviária encontrada com esse nome: " + name
  }

  /** The place types accepted as a bus station. */
  predicate IsStationPlace(types: seq<string>) {
    "bus_station" in types || "agency_travel" in types || "bus_stop" in types || "transit_station" in types
  }

  /**
   * The checks of CreateBusStation in their order (a station of that name
   * already stored, a place found for `"<name>, <city>"`, a place of a
   * station type), then the record to store: named by the place's display
   * name, with the requested city and uf.
   */
  function CreateBusStationCheck(stations: InMemoryBusStationRepository, search: string -> Option<Place>,
                                 name: string, city: string, uf: string)
    : Either<Error, BusStation>
    reads stations
  {
    if stations.FindByName(name).Some? then Failure(Conflict(AlreadyRegisteredMessage))
    else
      match search(name + ", " + city)
      case None => Failure(BadRequest(NoPlaceMessage(name)))
      case Some(place) =>
        if !IsStationPlace(place.types) then Failure(BadRequest(NotAStationMessage))
        else Success(BusStationEntity.Create(place.displayName, city, uf))
  }

  /**
   * The outcome of CreateBusStationCheck in full: a registered name is a
   * Conflict whatever the search would answer; then a missing place, then
   * a place of another type, is a BadRequest; a passing request yields a
   * station with no id, the place's display name, and the requested city
   * and uf.
   */
  lemma CreateBusStationOutcomes(stations: InMemoryBusStationRepository, search: string -> Option<Place>,
                                 name: string, city: string, uf: string)
    ensures var r := CreateBusStationCheck(stations, search, name, city, uf);
      var place := search(name + ", " + city);
      && ((exists b :: b in stations.busStations && b.name == name) <==> r == Failure(Conflict(AlreadyRegisteredMessage)))
      && ((forall b :: b in stations.busStations ==> b.name != name) ==>
            && (place.None? ==> r == Failure(BadRequest(NoPlaceMessage(name))))
            && (place.Some? && !IsStationPlace(place.value.types) ==> r == Failure(BadRequest(NotAStationMessage)))
            && (place.Some? && IsStationPlace(place.value.types) ==>
                  r == Success(BusStation(None, place.value.displayName, city, uf))))
  {
    var r := CreateBusStationCheck(stations, search, name, city, uf);
    if r == Failure(Conflict(AlreadyRegisteredMessage)) {
      assert stations.FindByName(name).Some?;
    }
  }

  /**
   * `CreateBusStation.execute`: a failed check stores nothing; otherwise
   * exactly the checked station is appended with a store-given id and
   * returned.
   */
  method CreateBusStation(stations: InMemoryBusStationRepository, search: string -> Option<Place>,
                          name: string, city: string, uf: string)
    returns (r: Either<Error, BusStation>)
    modifies stations
    ensures var check := old(CreateBusStationCheck(stations, search, name, city, uf));
      && (check.Failure? ==> r == Failure(check.error) && stations.busStations == old(stations.busStations))
      && (check.Success? ==>
            && r.Success?
            && r.value == check.value.(id := r.value.id)
            && r.value.id.Some? && 0 <= r.value.id.value <= 1000
            && stations.busStations == old(stations.busStations) + [r.value])
  {
    var check := CreateBusStationCheck(stations, search, name, city, uf);
    if check.Failure? {
      return Failure(check.error);
    }
    var busStation := stations.Create(check.value);
    r := Success(busStation);
  }

  /**
   * `DeleteBusStation.execute`: an absent id is NotFound and the store is
   * left alone; a present id removes exactly its first match, keeps the
   * rest in order, and returns the removed station. The store's
   * remove-the-last path for absent ids is never reached.
   */
  method DeleteBusStation(stations: InMemoryBusStationRepository, id: int) returns (r: Either<Error, BusStation>)
    modifies stations
    ensures old(stations.IndexOfId(id)) == -1 ==>
      r == Failure(NotFound(NoStationMessage(id))) && stations.busStations == old(stations.busStations)
    ensures old(stations.IndexOfId(id)) >= 0 ==>
      var k := old(stations.IndexOfId(id));
      && r == Success(old(stations.busStations)[k])
      && r.value.id == Some(id)
      && stations.busStations == old(stations.busStations)[..k] + old(stations.busStations)[k + 1..]
  {
    var busStationExists := stations.FindById(id);
    if busStationExists.None? {
      return Failure(NotFound(NoStationMessage(id)));
    }
    var busStation := stations.Delete(id);
    r := Success(busStation.value);
  }
}
