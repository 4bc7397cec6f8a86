/**
 * The Passenger entity (src/core/entities/passenger.ts): a booking of one
 * seat on one travel, and the rule deciding whether it may still be
 * cancelled. Times are integer milliseconds (`Date.getTime()`).
 */
module PassengerEntity {
  import opened Nullable
  import opened Time

  datatype Passenger = Passenger(id: Option<int>, name: string, rg: string, seat: int, idTravel: int)

  /** `Passenger.create`: no id yet, the given fields. */
  function Create(name: string, rg: string, seat: int, idTravel: int): (p: Passenger)
    ensures p.id == None
    ensures p.name == name && p.rg == rg && p.seat == seat && p.idTravel == idTravel
  {
    Passenger(None, name, rg, seat, idTravel)
  }

  /** `Passenger.restore`: the given id and fields. */
  function Restore(id: int, name: string, rg: string, seat: int, idTravel: int): (p: Passenger)
    ensures p.id == Some(id)
    ensures p.name == name && p.rg == rg && p.seat == seat && p.idTravel == idTravel
  {
    Passenger(Some(id), name, rg, seat, idTravel)
  }

  /**
   * `cancelTravel(exitDate, currentDate)`: false once the departure has
   * passed; otherwise the whole hours left, taken modulo one day, must be
   * at least one. The passenger itself plays no part.
   */
  function CancelTravel(p: Passenger, exitDate: int, currentDate: int): (ok: bool)
    ensures currentDate > exitDate ==> !ok
    ensures ok <==> currentDate <= exitDate && (exitDate - currentDate) % MsPerDay >= MsPerHour
  {
    if currentDate > exitDate then false
    else
      var diffInMs := Abs(currentDate - exitDate);
      var diffInHours := (diffInMs % MsPerDay) / MsPerHour;
      diffInHours >= 1
  }

  /** The remainder of d = k days + r (0 <= r < one day) modulo a day is r. */
  lemma {:induction false} ModDay(k: nat, r: int)
    requires 0 <= r < MsPerDay
    ensures (k * MsPerDay + r) % MsPerDay == r
  {
    if k > 0 {
      ModDay(k - 1, r);
      assert k * MsPerDay + r == (k - 1) * MsPerDay + r + MsPerDay;
    }
  }

  /** With d = exit − now, the answer is true exactly in the hours 1 .. 23 of each day: k days + [1 h, 24 h). */
  lemma {:induction false} CancelTravelByDay(p: Passenger, exitDate: int, currentDate: int, k: nat, r: int)
    requires 0 <= r < MsPerDay
    requires exitDate - currentDate == k * MsPerDay + r
    ensures CancelTravel(p, exitDate, currentDate) <==> r >= MsPerHour
  {
    ModDay(k, r);
  }

  /** Less than an hour before departure (or exactly at it), cancelling is refused. */
  lemma {:induction false} CancelRefusedWithinAnHour(p: Passenger, exitDate: int, currentDate: int)
    requires 0 <= exitDate - currentDate < MsPerHour
    ensures !CancelTravel(p, exitDate, currentDate)
  {
    CancelTravelByDay(p, exitDate, currentDate, 0, exitDate - currentDate);
  }

  /** From one hour up to (not including) one day before departure, cancelling is allowed. */
  lemma {:induction false} CancelAllowedSameDay(p: Passenger, exitDate: int, currentDate: int)
    requires MsPerHour <= exitDate - currentDate < MsPerDay
    ensures CancelTravel(p, exitDate, currentDate)
  {
    CancelTravelByDay(p, exitDate, currentDate, 0, exitDate - currentDate);
  }

  /** Hours are taken modulo a day: exactly 24 h, or 24 h plus less than an hour, is refused. */
  lemma {:induction false} CancelRefusedOneDayAhead(p: Passenger, exitDate: int, currentDate: int)
    requires MsPerDay <= exitDate - currentDate < MsPerDay + MsPerHour
    ensures !CancelTravel(p, exitDate, currentDate)
  {
    CancelTravelByDay(p, exitDate, currentDate, 1, exitDate - currentDate - MsPerDay);
  }

  /** The answer depends only on exit − now, and not on the passenger. */
  lemma {:induction false} CancelDependsOnlyOnDifference(p: Passenger, q: Passenger, exitDate: int, currentDate: int, shift: int)
    ensures CancelTravel(p, exitDate, currentDate) == CancelTravel(q, exitDate + shift, currentDate + shift)
  {
    assert (exitDate + shift) - (currentDate + shift) == exitDate - currentDate;
  }
}
