# Travel agency API — verified model of the booking core

This project models, in Dafny, the sequential core of a bus travel agency
back end (bastosmatheus/api-agency-travel, TypeScript): the seat inventory of
a `Travel`, the passenger's cancellation window, the four list-backed
in-memory stores (travels, passengers, users, bus stations), the `Either`
result type, the four error kinds, and the use cases that chain store reads,
validations and store writes into one `Either` answer.

The model follows the code as written, quirks included:

- `createSeats` builds the integers 0 .. 46 (47 entries, seat 0 included).
- `updateAvailableSeats(seat)` splices at the seat NUMBER stored at index
  `seat`. After takes alone from the fresh list, once an entry at or before
  position `seat` has gone the value stored there is larger than `seat`, so
  a later seat is removed, or none when that value is past the end. After a
  release, which pushes the seat at the end, the stored value can be smaller
  than its position, so an earlier seat is removed. An index outside the
  list reads `undefined`, which `splice` treats as 0, so the first entry
  goes.
- `updateAvailableSeatsIfCanceled` pushes without looking for duplicates.
- Every store's `delete` of an absent id splices at −1 and removes the last
  element; the three user updates throw a TypeError for an absent id.
- The travel store's city and date filters have callbacks with a block body
  and no `return`, so they never keep a travel; they index the store's
  three built-in stations by station id, and throw when that id is not a
  position of that list.
- `CancelTravel` compares the boolean returned by `cancelTravel` with `1`;
  both booleans are at most 1, so every request that passes the two lookups
  is refused and nothing is deleted.
- `CreatePassenger` never looks at or changes the seat list and checks
  neither the rg nor the seat, so one seat can be booked repeatedly. Some
  of the repository's own tests expect rg and seat conflicts; the code has
  none, and the model follows the code.

Layout, one module per file: `Nullable` (Option), `Either`, `Errors` (the
error kinds and the messages several use cases share), `Time` (millisecond
constants and `Math.abs`), `JsArray` (the Array built-ins: `a[i]`, `map` of a
key, `findIndex`/`find`, `splice(start, 1)` with relative starts), the
entities `TravelEntity` (a class: its seat list changes in place),
`PassengerEntity`, `UserEntity`, `BusStationEntity`
(records), the four stores (classes over a `seq` field), and the use cases
`TravelUseCases`, `PassengerUseCases`, `BusStationUseCases`, `UserUseCases`.

External collaborators are parameters: the route service
(`(origin name, destination name, departure) -> Option<Route>`), the place
search (`"<name>, <city>" -> Option<Place>`), bcrypt's `hash` and `compare`,
the token's `sign`, and the current time `now` in integer milliseconds.
`Math.random` ids are a nondeterministic choice in 0 .. 1000.

Timestamps are integer milliseconds (`Date.getTime()`). The `Travel` record
carries the fields the use cases and stores give it (departure and arrival
time, seat class, price, distance, duration, the two station ids, the seat
list); the field list declared in src/core/entities/travel.ts (origin city,
exit location, ...) is not what `create-travel.ts` passes, and the model
follows the callers. In the same way the cancellation gate reads the
travel's departure time where `cancel-travel.ts` spells it `derpatureDate`.

## Model

| member | source | states |
|---|---|---|
| TravelEntity.Travel.CreateSeats | src/core/entities/travel.ts:67-75 | the seat list is exactly 0, 1, …, 46: 47 entries, strictly ascending (so no duplicates), and x is listed iff 0 ≤ x ≤ 46 |
| TravelEntity.Travel.Create | src/core/entities/travel.ts:15-39 | a created travel has no id, the given fields, and the fresh 0 .. 46 seat list |
| TravelEntity.Travel.Restore | src/core/entities/travel.ts:41-65 | a restored travel has the given id, the given fields, and the given seat list unchanged |
| TravelEntity.Travel.UpdateAvailableSeats | src/core/entities/travel.ts:77-79 | the seat list becomes the old list spliced at the value found at index `seat` (0 when that index is outside the list); only the seat list may change |
| TravelEntity.Travel.UpdateAvailableSeatsIfCanceled | src/core/entities/travel.ts:81-83 | the seat list becomes the old list with `seat` appended; only the seat list may change |
| TravelEntity.TakeFromFreshList | src/core/entities/travel.ts:67-79 | on the fresh list, taking seat s (0 ≤ s ≤ 46) removes exactly the number s: 46 entries remain, still ascending, and x remains iff 0 ≤ x ≤ 46 and x ≠ s |
| TravelEntity.TakeRemovesAtMostOne | src/core/entities/travel.ts:77-79 | taking a seat never adds an entry: the list is unchanged or exactly one position is cut out, the rest keeping their order |
| TravelEntity.TakeUsesStoredValueAsIndex | src/core/entities/travel.ts:77-79 | after taking seat 0 from the fresh list, taking seat 5 leaves 5 in the list, removes 7 and leaves 45 seats (the case `m = 0`, `s = 5` of `TakeAfterOneTaken`) |
| TravelEntity.TakeAtStoredValue | src/core/entities/travel.ts:77-79 | when the value stored at index `seat` is itself a position of the list, exactly that position is cut out and the rest keep their order |
| TravelEntity.TakeAfterOneTaken | src/core/entities/travel.ts:77-79 | once seat m has gone from the fresh list, taking seat s removes s when s < m, removes s + 2 when m ≤ s < 45, and removes nothing when m ≤ s = 45 |
| TravelEntity.ReleaseThenTakeRemovesEarlier | src/core/entities/travel.ts:77-83 | take 0, release 0, take 0 leaves seat 0 at position 45, so taking seat 45 removes seat 1 and keeps seat 45, leaving 45 seats |
| TravelEntity.TakeOutOfRangeRemovesFirst | src/core/entities/travel.ts:77-79 | an out-of-range `seat` removes the first entry (nothing from an empty list) |
| TravelEntity.ReleaseKeepsDuplicates | src/core/entities/travel.ts:81-83 | releasing keeps every earlier entry, puts `seat` last, raises its count by one, and a seat already listed ends up listed at least twice |
| PassengerEntity.Create | src/core/entities/passenger.ts:10-12 | a created passenger has no id and the given name, rg, seat and travel id |
| PassengerEntity.Restore | src/core/entities/passenger.ts:14-16 | a restored passenger has the given id and fields |
| PassengerEntity.CancelTravel | src/core/entities/passenger.ts:18-31 | false when now is after the departure; otherwise true iff (departure − now) mod one day is at least one hour |
| PassengerEntity.ModDay | src/core/entities/passenger.ts:28 | k whole days plus r (0 ≤ r < one day) is r modulo a day |
| PassengerEntity.CancelTravelByDay | src/core/entities/passenger.ts:26-30 | with departure − now = k days + r, the answer is true iff r ≥ one hour |
| PassengerEntity.CancelRefusedWithinAnHour | src/core/entities/passenger.ts:26-30 | less than an hour before departure, cancelling is refused |
| PassengerEntity.CancelAllowedSameDay | src/core/entities/passenger.ts:26-30 | from one hour up to (not including) 24 hours before departure, cancelling is allowed |
| PassengerEntity.CancelRefusedOneDayAhead | src/core/entities/passenger.ts:28 | exactly 24 hours, or 24 hours plus less than an hour, before departure, cancelling is refused |
| PassengerEntity.CancelDependsOnlyOnDifference | src/core/entities/passenger.ts:18-31 | the answer depends only on departure − now, never on the passenger |
| Either.Succeed | src/utils/either.ts:37-39 | `success(v)` reports success, not failure, and carries exactly v |
| Either.Fail | src/utils/either.ts:33-35 | `failure(e)` reports failure, not success, and carries exactly e |
| Either.ExactlyOneHolds | src/utils/either.ts:41 | every result answers exactly one of `isSuccess`/`isFailure`, and `isSuccess` holds exactly on a Success |
| Errors.Error.StatusCode | src/application/use-cases/errors/not-found-error.ts:4 | each error kind has its own 4xx status: 404 iff NotFound, 409 iff Conflict, 400 iff BadRequest, 401 iff Unauthorized |
| JsArray.IndexOf | src/infra/repositories/in-memory/in-memory-travel-repository.ts:87 | `findIndex`: −1 iff no key matches; otherwise a matching position with no match before it |
| JsArray.SpliceAtFirstMatch | src/infra/repositories/in-memory/in-memory-travel-repository.ts:87-91 | splicing one element at the first match's index cuts exactly that element out |
| JsArray.SpliceWhenNoMatch | src/infra/repositories/in-memory/in-memory-travel-repository.ts:87-91 | with no match, `findIndex` gives −1 and `splice(-1, 1)` removes the last element |
| TravelRepository.InMemoryTravelRepository.constructor | src/infra/repositories/in-memory/in-memory-travel-repository.ts:5-26 | starts with no travel, beside the three built-in stations with ids 1, 2, 3 (São Paulo, São Paulo, Rio de Janeiro) at positions 0, 1, 2, which the city filters index by station id |
| TravelRepository.InMemoryTravelRepository.FindAll | src/infra/repositories/in-memory/in-memory-travel-repository.ts:28-30 | the stored list itself; `Create` appends at the end and `Delete` cuts out one position, so the order is insertion order |
| TravelRepository.FilterWithoutReturn | src/infra/repositories/in-memory/in-memory-travel-repository.ts:33-35 | a filter whose callback returns nothing keeps no element, and throws iff some station id is not a position of the station list |
| TravelRepository.InMemoryTravelRepository.FindByOriginCity | src/infra/repositories/in-memory/in-memory-travel-repository.ts:32-38 | never returns a travel; throws iff some stored travel's departure station id is outside the built-in station list |
| TravelRepository.InMemoryTravelRepository.FindByDestinationCity | src/infra/repositories/in-memory/in-memory-travel-repository.ts:40-46 | never returns a travel; throws iff some stored travel's arrival station id is outside the built-in station list |
| TravelRepository.InMemoryTravelRepository.FindByDepartureDate | src/infra/repositories/in-memory/in-memory-travel-repository.ts:48-55 | never returns a travel; tests the arrival station first, so throws iff some arrival station id is outside the built-in list |
| TravelRepository.InMemoryTravelRepository.IndexOfId | src/infra/repositories/in-memory/in-memory-travel-repository.ts:87 | −1 iff no stored travel has the id; otherwise the first travel with it |
| TravelRepository.InMemoryTravelRepository.FindById | src/infra/repositories/in-memory/in-memory-travel-repository.ts:57-76 | null iff no stored travel has the id; otherwise a new object holding the first match's data and id |
| TravelRepository.InMemoryTravelRepository.Create | src/infra/repositories/in-memory/in-memory-travel-repository.ts:78-84 | the given travel gets an id in 0 .. 1000 and is appended; earlier travels keep their ids; no seat list changes |
| TravelRepository.InMemoryTravelRepository.Delete | src/infra/repositories/in-memory/in-memory-travel-repository.ts:86-94 | a present id: the first match is removed and returned, the rest keep their order; an absent id: the last travel is removed and undefined returned |
| PassengerRepository.InMemoryPassengerRepository.constructor | src/infra/repositories/in-memory/in-memory-passenger-repository.ts:4-5 | starts with no passenger |
| PassengerRepository.InMemoryPassengerRepository.FindAll | src/infra/repositories/in-memory/in-memory-passenger-repository.ts:7-9 | the stored list itself; `Create` appends at the end and `Delete` cuts out one position, so the order is insertion order |
| PassengerRepository.InMemoryPassengerRepository.IndexOfId | src/infra/repositories/in-memory/in-memory-passenger-repository.ts:36 | −1 iff no stored passenger has the id; otherwise the first passenger with it |
| PassengerRepository.InMemoryPassengerRepository.FindById | src/infra/repositories/in-memory/in-memory-passenger-repository.ts:11-25 | null iff no stored passenger has the id; otherwise the first match |
| PassengerRepository.InMemoryPassengerRepository.Create | src/infra/repositories/in-memory/in-memory-passenger-repository.ts:27-33 | the passenger gets an id in 0 .. 1000 and is appended; earlier passengers are unchanged |
| PassengerRepository.InMemoryPassengerRepository.Delete | src/infra/repositories/in-memory/in-memory-passenger-repository.ts:35-43 | a present id: the first match is removed and returned, order kept; an absent id: the last passenger is removed |
| UserRepository.InMemoryUserRepository.constructor | src/infra/repositories/in-memory/in-memory-user-repository.ts:4-5 | starts with no user |
| UserRepository.InMemoryUserRepository.FindAll | src/infra/repositories/in-memory/in-memory-user-repository.ts:7-9 | the stored list itself; `Create` appends at the end, `Delete` cuts out one position and the updates rewrite one in place, so the order is insertion order |
| UserRepository.InMemoryUserRepository.IndexOfId | src/infra/repositories/in-memory/in-memory-user-repository.ts:92 | −1 iff no stored user has the id; otherwise the first user with it |
| UserRepository.InMemoryUserRepository.FindById | src/infra/repositories/in-memory/in-memory-user-repository.ts:11-27 | null iff no stored user has the id; otherwise the first match |
| UserRepository.InMemoryUserRepository.FindByEmail | src/infra/repositories/in-memory/in-memory-user-repository.ts:29-45 | null iff no stored user has the e-mail; otherwise the first user with it |
| UserRepository.InMemoryUserRepository.FindByCpf | src/infra/repositories/in-memory/in-memory-user-repository.ts:47-63 | null iff no stored user has the cpf; otherwise the first user with it |
| UserRepository.InMemoryUserRepository.FindByTelephone | src/infra/repositories/in-memory/in-memory-user-repository.ts:65-81 | null iff no stored user has the telephone; otherwise the first user with it |
| UserRepository.InMemoryUserRepository.Create | src/infra/repositories/in-memory/in-memory-user-repository.ts:83-89 | the user gets an id in 0 .. 1000 and is appended; earlier users are unchanged |
| UserRepository.InMemoryUserRepository.Update | src/infra/repositories/in-memory/in-memory-user-repository.ts:91-97 | a present id: only the first match's name changes and the updated user is returned; an absent id throws and changes nothing |
| UserRepository.InMemoryUserRepository.UpdateTelephone | src/infra/repositories/in-memory/in-memory-user-repository.ts:99-105 | a present id: only the first match's telephone changes and the updated user is returned; an absent id throws and changes nothing |
| UserRepository.InMemoryUserRepository.UpdatePasswordUser | src/infra/repositories/in-memory/in-memory-user-repository.ts:107-113 | a present id: only the first match's password changes and the updated user is returned; an absent id throws and changes nothing |
| UserRepository.InMemoryUserRepository.Delete | src/infra/repositories/in-memory/in-memory-user-repository.ts:115-123 | a present id: the first match is removed and returned, order kept; an absent id: the last user is removed |
| BusStationRepository.InMemoryBusStationRepository.constructor | src/infra/repositories/in-memory/in-memory-bus-station-repository.ts:4-5 | starts with no station |
| BusStationRepository.InMemoryBusStationRepository.FindAll | src/infra/repositories/in-memory/in-memory-bus-station-repository.ts:7-9 | the stored list itself; `Create` appends at the end and `Delete` cuts out one position, so the order is insertion order |
| BusStationRepository.WithCity | src/infra/repositories/in-memory/in-memory-bus-station-repository.ts:12 | the filter keeps exactly the stations of that city and never grows the list |
| BusStationRepository.WithCityAppend | src/infra/repositories/in-memory/in-memory-bus-station-repository.ts:12 | filtering by city distributes over appending: a station added last is found last |
| BusStationRepository.InMemoryBusStationRepository.FindByCity | src/infra/repositories/in-memory/in-memory-bus-station-repository.ts:11-15 | returns exactly the stored stations of that city |
| BusStationRepository.InMemoryBusStationRepository.IndexOfId | src/infra/repositories/in-memory/in-memory-bus-station-repository.ts:56 | −1 iff no stored station has the id; otherwise the first station with it |
| BusStationRepository.InMemoryBusStationRepository.FindByName | src/infra/repositories/in-memory/in-memory-bus-station-repository.ts:17-30 | null iff no stored station has the name; otherwise the first station with it |
| BusStationRepository.InMemoryBusStationRepository.FindById | src/infra/repositories/in-memory/in-memory-bus-station-repository.ts:32-45 | null iff no stored station has the id; otherwise the first match |
| BusStationRepository.InMemoryBusStationRepository.Create | src/infra/repositories/in-memory/in-memory-bus-station-repository.ts:47-53 | the station gets an id in 0 .. 1000 and is appended; every city's listing gains it at the end iff it is in that city |
| BusStationRepository.InMemoryBusStationRepository.Delete | src/infra/repositories/in-memory/in-memory-bus-station-repository.ts:55-63 | a present id: the first match is removed and returned, order kept; an absent id: the last station is removed |
| BusStationEntity.Create | src/core/entities/bus-station.ts:9-11 | a created station has no id and the given name, city and uf |
| TravelUseCases.DurationBetween | src/application/use-cases/travel/create-travel.ts:108-113 | minutes stay below 60, and hours × 60 + minutes is the whole number of minutes between the two instants |
| TravelUseCases.WholeMinutes | src/application/use-cases/travel/create-travel.ts:110-111 | q minutes plus less than a minute holds q whole minutes |
| TravelUseCases.CreateTravelOutcomes | src/application/use-cases/travel/create-travel.ts:34-113 | the checks run in order (equal ids Conflict, departure station NotFound, arrival station NotFound, departure not after now BadRequest, no route BadRequest); a passing request arrives at departure + seconds × 1000 with the route's distance and a duration of the whole minutes travelled |
| TravelUseCases.SameStationsAlwaysConflict | src/application/use-cases/travel/create-travel.ts:34-38 | equal station ids give Conflict whatever the stores, the date and the route service |
| TravelUseCases.PastDepartureNeverPasses | src/application/use-cases/travel/create-travel.ts:64-74 | a departure not strictly after now always fails |
| TravelUseCases.CreateTravel | src/application/use-cases/travel/create-travel.ts:25-128 | a failed check returns its error and stores nothing; otherwise exactly one new travel is appended and returned, with an id in 0 .. 1000, the fresh 0 .. 46 seat list and the checked arrival, duration and distance; earlier travels keep their ids and seats |
| TravelUseCases.DeleteTravel | src/application/use-cases/travel/delete-travel.ts:13-23 | an absent id is NotFound and the store is unchanged; a present id removes exactly its first match, keeps the rest in order, and returns it |
| PassengerUseCases.CreatePassenger | src/application/use-cases/passenger/create-passenger.ts:20-37 | no travel with the id: NotFound and nothing stored; otherwise exactly one passenger with the given fields is appended and returned; no rg or seat check; the travels and their seat lists are untouched |
| PassengerUseCases.GateAlwaysRejects | src/application/use-cases/passenger/cancel-travel.ts:35-41 | `cancelTravel`'s boolean compared with 1 is always at most 1, so the gate rejects both answers |
| PassengerUseCases.CancelTravel | src/application/use-cases/passenger/cancel-travel.ts:18-42 | always a failure and no store changes: a missing passenger is NotFound first, then a missing travel is NotFound, otherwise BadRequest |
| PassengerUseCases.CompleteCancellation | src/application/use-cases/passenger/cancel-travel.ts:43-46 | for the passenger the id lookup found: deletes exactly the first passenger with the id, which is that passenger, returns it, and appends its seat to the seat list of that passenger's own travel, as looked up by its `id_travel` |
| BusStationUseCases.CreateBusStationOutcomes | src/application/use-cases/bus-station/create-bus-station.ts:22-51 | a registered name is Conflict whatever the search answers; then no place is BadRequest, then a place of no station type is BadRequest; a passing request yields a station named by the place's display name with the given city and uf |
| BusStationUseCases.CreateBusStation | src/application/use-cases/bus-station/create-bus-station.ts:17-55 | a failed check returns its error and stores nothing; otherwise exactly the checked station is appended with an id in 0 .. 1000 and returned |
| BusStationUseCases.DeleteBusStation | src/application/use-cases/bus-station/delete-bus-station.ts:16-25 | an absent id is NotFound and the store is unchanged; a present id removes exactly its first match, keeps the rest in order, and returns it |
| UserUseCases.CreateUserConflict | src/application/use-cases/user/create-user.ts:25-41 | a Conflict is reported iff the e-mail, cpf or telephone is already stored |
| UserUseCases.CreateUserConflictOrder | src/application/use-cases/user/create-user.ts:25-41 | e-mail is checked first, then cpf, then telephone: each Conflict is reported iff its field is taken and every earlier field is free |
| UserUseCases.CreateUser | src/application/use-cases/user/create-user.ts:18-50 | a Conflict stores nothing; otherwise exactly one user is appended and returned, with an id in 0 .. 1000, the given fields, the hash of the given password and no admin flag |
| UserUseCases.LoginUserOutcomes | src/application/use-cases/user/login-user.ts:20-43 | NotFound iff no user has the e-mail; then Unauthorized iff `compare` rejects the password against the first such user's stored hash; otherwise the signed id, admin flag and e-mail of that user; the store is only read |
| UserUseCases.UpdateUser | src/application/use-cases/user/update-user.ts:14-24 | an absent id is NotFound with nothing changed; otherwise only that user's name changes and the updated user is returned |
| UserUseCases.TelephoneConflictIff | src/application/use-cases/user/update-telephone.ts:25-29 | the telephone Conflict arises iff some stored user has the new telephone and the caller's current telephone differs from it |
| UserUseCases.KeepingOwnTelephoneNeverConflicts | src/application/use-cases/user/update-telephone.ts:25-29 | setting a user's telephone to its current value never conflicts |
| UserUseCases.UpdateTelephone | src/application/use-cases/user/update-telephone.ts:15-34 | an absent id is NotFound, a taken telephone is Conflict, both with nothing changed; otherwise only that user's telephone changes and the updated user is returned |
| UserUseCases.UpdatePasswordUser | src/application/use-cases/user/update-password-user.ts:15-30 | an absent id is NotFound with nothing changed; otherwise only that user's password changes, to the hash of the given one, and the updated user is returned |
| UserUseCases.DeleteUser | src/application/use-cases/user/delete-user.ts:13-23 | an absent id is NotFound and the store is unchanged; a present id removes exactly its first match, keeps the rest in order, and returns it |

## Left out

- HTTP controllers, routes, request schemas, SQL repositories, and the network calls to the route and place services: not part of this model; the two services are function parameters.
- bcrypt and JWT: `hash`, `compare` and `sign` are uninterpreted function parameters.
- `Math.random` ids: a nondeterministic choice in 0 .. 1000; rounding of a random float is not modelled.
- `new Date()`: the current time is an integer-millisecond parameter; the local-time string that `create-travel.ts` rebuilds before comparing dates is not modelled, and the departure is compared with "now" directly.
- TravelUseCases.Route: the distance is taken from the route service as a number; parsing the localized distance text with `Number(...)` (floating point) is not modelled.
- TravelEntity.Duration: the duration text `"<h>h <m>m"` is kept as its two numbers; the string rendering is not modelled.
- BusStationUseCases.Place: only the first place of the search answer is modelled; a present but empty `places` array (reading `places[0].types` then throws) is not modelled.
- The positional argument mismatches in the stores' `restore` calls (passenger, user and travel finds) are type drift: each find returns the stored record's data.
- TravelRepository.InMemoryTravelRepository.FindById: the restored copy holds the stored seat list by value; JavaScript would share the same array between the copy and the stored travel.
- The passenger, user and bus-station stores hold records by value: in the source each `create` writes the id into the caller's own object and pushes that object, and each user `update*` returns the stored object, so caller and store share it; the model's callers get a copy.
- TravelUseCases.Route: only the first route of the route service's answer is modelled; a present but empty `routes` array (reading `routes[0].localizedValues` then throws) is not modelled.
- PassengerUseCases.CompleteCancellation: the continuation of `CancelTravel` past its gate is a separate method, since the gate refuses every request and those lines are never reached.
- UserUseCases.CreateUser: src/core/entities/user.ts is not part of this model (its `create` neither takes a password nor matches the call); the new user is built from the given fields with the admin flag false.
- Errors: the messages are kept as texts; the `type` names are a plain function without a contract.
- Seats, ids and timestamps are integers; non-integer seats, NaN dates and JavaScript number precision are not modelled.
- `async`/`await`: each `execute` is one atomic sequential step.
- The thin lookup use cases (`find-*`), the buyer entity and repository, and the repository interfaces are not part of this model.
