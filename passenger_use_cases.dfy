/**
 * The passenger use cases: CreatePassenger
 * (src/application/use-cases/passenger/create-passenger.ts) and
 * CancelTravel (src/application/use-cases/passenger/cancel-travel.ts).
 * "now" is an integer-ms parameter.
 */
module PassengerUseCases {
  import opened Nullable
  import opened Either
  import opened Errors
  import opened TravelEntity
  import opened PassengerEntity
  import opened TravelRepository
  import opened PassengerRepository

  const TooLateMessage := "O cancelamento só pode ser feito até 1 hora antes do embarque"

  function NoPassengerMessage(id: int): string {
    "Nenhum passageiro encontrado com o ID: " + DecimalText(id)
  }

  /**
   * `CreatePassenger.execute`: NotFound when no travel has the id, and
   * nothing stored; otherwise exactly one passenger with the given name,
   * rg, seat and travel id is appended and returned. The travel's seat
   * list is neither read nor changed, and there is no rg or seat check, so
   * the same seat can be booked any number of times.
   */
  method CreatePassenger(passengers: InMemoryPassengerRepository, travels: InMemoryTravelRepository,
                         name: string, rg: string, seat: int, idTravel: int)
    returns (r: Either<Error, Passenger>)
    modifies passengers
    ensures travels.IndexOfId(idTravel) == -1 ==>
      r == Failure(NotFound(NoTravelMessage(idTravel))) && passengers.passengers == old(passengers.passengers)
    ensures travels.IndexOfId(idTravel) >= 0 ==>
      && r.Success?
      && r.value == Passenger(r.value.id, name, rg, seat, idTravel)
      && r.value.id.Some? && 0 <= r.value.id.value <= 1000
      && passengers.passengers == old(passengers.passengers) + [r.value]
    ensures travels.travels == old(travels.travels)
    ensures forall t :: t in travels.travels ==> t.availableSeats == old(t.availableSeats)
  {
    var travelExists := travels.FindById(idTravel);
    if travelExists == null {
      return Failure(NotFound(NoTravelMessage(idTravel)));
    }
    var passengerCreated := PassengerEntity.Create(name, rg, seat, idTravel);
    var passenger := passengers.Create(passengerCreated);
    r := Success(passenger);
  }

  /**
   * `diffInHours <= 1`, where diffInHours is the BOOLEAN cancelTravel
   * returned: the comparison turns false into 0 and true into 1.
   */
  function GateRejects(canCancel: bool): bool {
    (if canCancel then 1 else 0) <= 1
  }

  /** Both booleans compare as at most 1, so the gate rejects whatever cancelTravel said. */
  lemma GateAlwaysRejects(canCancel: bool)
    ensures GateRejects(canCancel)
  {
  }

  /**
   * `CancelTravel.execute`: the passenger lookup comes first, then the
   * travel lookup, then the time gate. As written the gate rejects every
   * request that passes both lookups, so every call fails and neither store
   * changes (the method modifies nothing).
   */
  method CancelTravel(passengers: InMemoryPassengerRepository, travels: InMemoryTravelRepository,
                      now: int, id: int)
    returns (r: Either<Error, Passenger>)
    ensures r.Failure?
    ensures passengers.FindById(id).None? ==> r == Failure(NotFound(NoPassengerMessage(id)))
    ensures passengers.FindById(id).Some? ==>
      var idTravel := passengers.FindById(id).value.idTravel;
      && (travels.IndexOfId(idTravel) == -1 ==> r == Failure(NotFound(NoTravelMessage(idTravel))))
      && (travels.IndexOfId(idTravel) >= 0 ==> r == Failure(BadRequest(TooLateMessage)))
  {
    var passengerExists := passengers.FindById(id);
    if passengerExists.None? {
      return Failure(NotFound(NoPassengerMessage(id)));
    }
    var passenger := passengerExists.value;
    var travelExists := travels.FindById(passenger.idTravel);
    if travelExists == null {
      return Failure(NotFound(NoTravelMessage(passenger.idTravel)));
    }
    var canCancel := PassengerEntity.CancelTravel(passenger, travelExists.departureDate, now);
    if GateRejects(canCancel) {
      return Failure(BadRequest(TooLateMessage));
    }
    // Not reached (GateAlwaysRejects): the rest of the source is CompleteCancellation.
  }

  /**
   * Lines 43-46 of cancel-travel.ts, which CancelTravel would run past its
   * gate: delete the passenger the lookup found from its store, then push
   * that passenger's seat onto the seat list of the travel object the
   * lookup returned, and return the deleted passenger. In this model that
   * object is a copy holding the seat list by value, so the stored travel
   * keeps its list; in JavaScript the restored object shares the stored
   * array and the push would reach it.
   */
  method CompleteCancellation(passengers: InMemoryPassengerRepository, travel: Travel, passenger: Passenger, id: int)
    returns (r: Either<Error, Passenger>)
    requires passengers.FindById(id) == Some(passenger)
    requires travel.id == Some(passenger.idTravel)
    modifies passengers, travel`availableSeats
    ensures r == Success(passenger)
    ensures var k := old(passengers.IndexOfId(id));
      && r == Success(old(passengers.passengers)[k])
      && passengers.passengers == old(passengers.passengers)[..k] + old(passengers.passengers)[k + 1..]
    ensures travel.availableSeats == SeatReleased(old(travel.availableSeats), passenger.seat)
  {
    var deleted := passengers.Delete(id);
    travel.UpdateAvailableSeatsIfCanceled(passenger.seat);
    r := Success(deleted.value);
  }
}
