/**
 * The Travel entity (src/core/entities/travel.ts): a scheduled trip whose
 * seat inventory is a list of integers changed in place.
 *
 * Times are integer milliseconds since the epoch (`Date.getTime()`).
 * The fields follow the shape the use cases and the stores give a travel:
 * departure and arrival times, seat class, price, distance, duration text,
 * the two station ids and the seat list.
 */
module TravelEntity {
  import opened Nullable
  import JsArray

  /** `createSeats` counts i from 0 while i <= 46. */
  const LastSeat: int := 46

  /** The duration text `"<hours>h <minutes>m"` as its two numbers. */
  datatype Duration = Duration(hours: nat, minutes: nat)

  /** The list `createSeats` builds: 0, 1, …, 46. */
  function AllSeats(): seq<int> {
    seq(LastSeat + 1, i => i)
  }

  /** The seat list that `updateAvailableSeats(seat)` leaves: it splices at the VALUE found at index seat (undefined, hence 0, when seat is out of range). */
  function SeatTaken(seats: seq<int>, seat: int): seq<int> {
    JsArray.Splice1(seats, JsArray.StartOf(JsArray.At(seats, seat)))
  }

  /** The seat list that `updateAvailableSeatsIfCanceled(seat)` leaves: seat pushed at the end. */
  function SeatReleased(seats: seq<int>, seat: int): seq<int> {
    seats + [seat]
  }

  /** a and b hold the same id and field values (a `Travel.restore` copy of b). */
  predicate SameData(a: Travel, b: Travel)
    reads a, b
  {
    a.id == b.id && a.departureDate == b.departureDate && a.arrivalDate == b.arrivalDate &&
    a.busSeat == b.busSeat && a.price == b.price && a.distanceKm == b.distanceKm &&
    a.duration == b.duration && a.departureStationId == b.departureStationId &&
    a.arrivalStationId == b.arrivalStationId && a.availableSeats == b.availableSeats
  }

  class Travel {
    var id: Option<int>
    const departureDate: int
    const arrivalDate: int
    const busSeat: string
    const price: real
    const distanceKm: real
    const duration: Duration
    const departureStationId: int
    const arrivalStationId: int
    var availableSeats: seq<int>

    /** `Travel.create`: no id yet and a fresh seat list. */
    constructor Create(departureDate: int, arrivalDate: int, busSeat: string, price: real,
                       distanceKm: real, duration: Duration,
                       departureStationId: int, arrivalStationId: int)
      ensures id == None && availableSeats == AllSeats()
      ensures this.departureDate == departureDate && this.arrivalDate == arrivalDate
      ensures this.busSeat == busSeat && this.price == price
      ensures this.distanceKm == distanceKm && this.duration == duration
      ensures this.departureStationId == departureStationId
      ensures this.arrivalStationId == arrivalStationId
    {
      var seats := CreateSeats();
      this.id := None;
      this.departureDate := departureDate;
      this.arrivalDate := arrivalDate;
      this.busSeat := busSeat;
      this.price := price;
      this.distanceKm := distanceKm;
      this.duration := duration;
      this.departureStationId := departureStationId;
      this.arrivalStationId := arrivalStationId;
      this.availableSeats := seats;
    }

    /** `Travel.restore`: the given id and every given field, the seat list as it is. */
    constructor Restore(id: int, departureDate: int, arrivalDate: int, busSeat: string, price: real,
                        distanceKm: real, duration: Duration,
                        departureStationId: int, arrivalStationId: int, availableSeats: seq<int>)
      ensures this.id == Some(id) && this.availableSeats == availableSeats
      ensures this.departureDate == departureDate && this.arrivalDate == arrivalDate
      ensures this.busSeat == busSeat && this.price == price
      ensures this.distanceKm == distanceKm && this.duration == duration
      ensures this.departureStationId == departureStationId
      ensures this.arrivalStationId == arrivalStationId
    {
      this.id := Some(id);
      this.departureDate := departureDate;
      this.arrivalDate := arrivalDate;
      this.busSeat := busSeat;
      this.price := price;
      this.distanceKm := distanceKm;
      this.duration := duration;
      this.departureStationId := departureStationId;
      this.arrivalStationId := arrivalStationId;
      this.availableSeats := availableSeats;
    }

    /** `createSeats`: the integers 0 .. 46, ascending, each once. */
    static method CreateSeats() returns (seats: seq<int>)
      ensures seats == AllSeats()
      ensures |seats| == LastSeat + 1
      ensures forall i, j :: 0 <= i < j < |seats| ==> seats[i] < seats[j]
      ensures forall x :: x in seats <==> 0 <= x <= LastSeat
    {
      seats := [];
      var i := 0;
      while i <= LastSeat
        invariant 0 <= i <= LastSeat + 1
        invariant |seats| == i
        invariant forall k :: 0 <= k < i ==> seats[k] == k
      {
        seats := seats + [i];
        i := i + 1;
      }
      forall x | 0 <= x <= LastSeat ensures x in seats {
        assert seats[x] == x;
      }
    }

    /** `updateAvailableSeats(seat)`: `availableSeats.splice(availableSeats[seat], 1)`; no other field changes. */
    method UpdateAvailableSeats(seat: int)
      modifies this`availableSeats
      ensures availableSeats == SeatTaken(old(availableSeats), seat)
    {
      var start := JsArray.StartOf(JsArray.At(availableSeats, seat));
      availableSeats := JsArray.Splice1(availableSeats, start);
    }

    /** `updateAvailableSeatsIfCanceled(seat)`: `availableSeats.push(seat)`; no other field changes. */
    method UpdateAvailableSeatsIfCanceled(seat: int)
      modifies this`availableSeats
      ensures availableSeats == SeatReleased(old(availableSeats), seat)
    {
      availableSeats := availableSeats + [seat];
    }
  }

  /** Taking seat s (0 <= s <= 46) from the fresh list removes exactly the number s. */
  lemma {:induction false} TakeFromFreshList(s: int)
    requires 0 <= s <= LastSeat
    ensures |SeatTaken(AllSeats(), s)| == LastSeat
    ensures forall x :: x in SeatTaken(AllSeats(), s) <==> 0 <= x <= LastSeat && x != s
    ensures forall i, j :: 0 <= i < j < LastSeat ==> SeatTaken(AllSeats(), s)[i] < SeatTaken(AllSeats(), s)[j]
  {
    var all := AllSeats();
    var r := SeatTaken(all, s);
    assert JsArray.At(all, s) == Some(s);
    assert r == all[..s] + all[s + 1..];
    forall x ensures x in r <==> 0 <= x <= LastSeat && x != s {
      if 0 <= x < s {
        assert r[x] == x;
      } else if s < x <= LastSeat {
        assert r[x - 1] == x;
      }
    }
  }

  /**
   * Taking a seat never adds anything and removes at most one entry; the
   * entries that stay keep their relative order.
   */
  lemma {:induction false} TakeRemovesAtMostOne(seats: seq<int>, seat: int)
    ensures var r := SeatTaken(seats, seat);
      r == seats ||
      exists k :: 0 <= k < |seats| && r == seats[..k] + seats[k + 1..]
  {
    var k := JsArray.RelativeStart(|seats|, JsArray.StartOf(JsArray.At(seats, seat)));
    var r := SeatTaken(seats, seat);
    if k < |seats| {
      assert r == seats[..k] + seats[k + 1..];
    } else {
      assert r == seats;
    }
  }

  /** Cutting position k out of an ascending list removes exactly the value found there. */
  lemma {:induction false} CutKeepsOthers(seats: seq<int>, k: int)
    requires forall i, j :: 0 <= i < j < |seats| ==> seats[i] < seats[j]
    requires 0 <= k < |seats|
    ensures forall x :: x in seats[..k] + seats[k + 1..] <==> x in seats && x != seats[k]
  {
    var r := seats[..k] + seats[k + 1..];
    forall x ensures x in r <==> x in seats && x != seats[k] {
      if x in r {
        var i :| 0 <= i < |r| && r[i] == x;
        if i < k { assert r[i] == seats[i]; } else { assert r[i] == seats[i + 1]; }
      }
      if x in seats && x != seats[k] {
        var j :| 0 <= j < |seats| && seats[j] == x;
        if j < k { assert r[j] == x; } else { assert r[j - 1] == x; }
      }
    }
  }

  /**
   * Taking seat s (a valid position) once seat m has gone from the fresh
   * list: below m the positions still hold their own numbers and s itself
   * goes; from m on, position s holds s + 1, so the splice at s + 1
   * removes seat s + 2 instead, and removes nothing when s + 1 is past the
   * end of the 46-entry list.
   */
  lemma {:induction false} TakeAfterOneTaken(m: int, s: int)
    requires 0 <= m <= LastSeat && 0 <= s < LastSeat
    ensures var once := SeatTaken(AllSeats(), m);
      var r := SeatTaken(once, s);
      && (s < m ==> forall x :: x in r <==> 0 <= x <= LastSeat && x != m && x != s)
      && (m <= s < LastSeat - 1 ==> forall x :: x in r <==> 0 <= x <= LastSeat && x != m && x != s + 2)
      && (m <= s == LastSeat - 1 ==> r == once)
  {
    TakeFromFreshList(m);
    var all := AllSeats();
    TakeAtStoredValue(all, m);
    TakeFromOneGone(SeatTaken(all, m), m, s);
  }

  /** The case analysis of `TakeAfterOneTaken`, over any list shaped like the fresh list without m. */
  lemma {:induction false} TakeFromOneGone(once: seq<int>, m: int, s: int)
    requires 0 <= m <= LastSeat && 0 <= s < LastSeat && |once| == LastSeat
    requires forall i :: 0 <= i < |once| ==> once[i] == if i < m then i else i + 1
    requires forall i, j :: 0 <= i < j < |once| ==> once[i] < once[j]
    requires forall x :: x in once <==> 0 <= x <= LastSeat && x != m
    ensures var r := SeatTaken(once, s);
      && (s < m ==> forall x :: x in r <==> 0 <= x <= LastSeat && x != m && x != s)
      && (m <= s < LastSeat - 1 ==> forall x :: x in r <==> 0 <= x <= LastSeat && x != m && x != s + 2)
      && (m <= s == LastSeat - 1 ==> r == once)
  {
    var r := SeatTaken(once, s);
    if s < m {
      TakeAtStoredValue(once, s);
      CutKeepsOthers(once, s);
      forall x ensures x in r <==> 0 <= x <= LastSeat && x != m && x != s {
        assert x in r <==> x in once && x != s;
      }
    } else if s < LastSeat - 1 {
      TakeAtStoredValue(once, s);
      CutKeepsOthers(once, s + 1);
      assert once[s + 1] == s + 2;
      forall x ensures x in r <==> 0 <= x <= LastSeat && x != m && x != s + 2 {
        assert x in r <==> x in once && x != s + 2;
      }
    } else {
      assert JsArray.At(once, s) == Some(LastSeat);
    }
  }

  /**
   * Because the seat NUMBER found at index `seat` is used as the splice
   * index, after takes alone from the fresh list the value found there is
   * larger than `seat` once an entry at or before position `seat` has gone,
   * and a later seat goes: after taking seat 0, taking seat 5 removes 7 and
   * leaves 5 in place. After a release the value can be smaller instead
   * (see `ReleaseThenTakeRemovesEarlier`).
   */
  lemma TakeUsesStoredValueAsIndex()
    ensures var r := SeatTaken(SeatTaken(AllSeats(), 0), 5);
      5 in r && 7 !in r && |r| == LastSeat - 1
  {
    TakeAfterOneTaken(0, 5);
    TakeFromFreshList(0);
    var once := SeatTaken(AllSeats(), 0);
    var k := once[5];
    assert JsArray.At(once, 5) == Some(k);
    assert |SeatTaken(once, 5)| == |once[..k] + once[k + 1..]|;
  }

  /** A take whose stored value is a position of the list cuts out that position. */
  lemma TakeAtStoredValue(seats: seq<int>, seat: int)
    requires 0 <= seat < |seats| && 0 <= seats[seat] < |seats|
    ensures SeatTaken(seats, seat) == seats[..seats[seat]] + seats[seats[seat] + 1..]
  {
    assert JsArray.At(seats, seat) == Some(seats[seat]);
  }

  /** Take 0, release 0, take 0 from the fresh list: [1, 3, 4, .., 46, 0]. */
  lemma ReleasedThenRetaken()
    ensures var again := SeatTaken(SeatReleased(SeatTaken(AllSeats(), 0), 0), 0);
      && |again| == LastSeat && again[0] == 1 && again[LastSeat - 1] == 0
      && forall i :: 1 <= i < LastSeat - 1 ==> again[i] == i + 2
  {
    TakeFromFreshList(0);
    var all := AllSeats();
    TakeAtStoredValue(all, 0);
    var once := SeatTaken(all, 0);
    assert forall i :: 0 <= i < |once| ==> once[i] == i + 1;
    var back := SeatReleased(once, 0);
    assert back[0] == 1;
    TakeAtStoredValue(back, 0);
  }

  /**
   * A released seat is pushed at the end, so the value stored at a late
   * position can be smaller than that position: take 0, release 0, take 0
   * leaves [1, 3, 4, .., 46, 0]; taking seat 45 then reads 0 there and
   * removes seat 1, an earlier seat, while seat 45 stays.
   */
  lemma ReleaseThenTakeRemovesEarlier()
    ensures var r := SeatTaken(SeatTaken(SeatReleased(SeatTaken(AllSeats(), 0), 0), 0), 45);
      1 !in r && 45 in r && |r| == LastSeat - 1
  {
    ReleasedThenRetaken();
    TakeLastOfRetaken(SeatTaken(SeatReleased(SeatTaken(AllSeats(), 0), 0), 0));
  }

  /** On a list shaped [1, 3, 4, .., 46, 0], taking seat 45 reads 0 and removes seat 1. */
  lemma TakeLastOfRetaken(again: seq<int>)
    requires |again| == LastSeat && again[0] == 1 && again[LastSeat - 1] == 0
    requires forall i :: 1 <= i < LastSeat - 1 ==> again[i] == i + 2
    ensures var r := SeatTaken(again, 45);
      1 !in r && 45 in r && |r| == LastSeat - 1
  {
    TakeAtStoredValue(again, 45);
    var r := SeatTaken(again, 45);
    assert r == again[1..];
    assert forall i :: 0 <= i < |r| ==> r[i] == again[i + 1];
    assert r[42] == 45;
  }

  /** An index outside the list reads undefined, which splice treats as 0: the first entry goes. */
  lemma {:induction false} TakeOutOfRangeRemovesFirst(seats: seq<int>, seat: int)
    requires seat < 0 || |seats| <= seat
    ensures SeatTaken(seats, seat) == if seats == [] then [] else seats[1..]
  {
    assert JsArray.At(seats, seat) == None;
  }

  /** Releasing a seat keeps every earlier entry and does not look for duplicates: a seat already listed is listed twice. */
  lemma {:induction false} ReleaseKeepsDuplicates(seats: seq<int>, seat: int)
    ensures SeatReleased(seats, seat)[..|seats|] == seats
    ensures SeatReleased(seats, seat)[|seats|] == seat
    ensures multiset(SeatReleased(seats, seat))[seat] == multiset(seats)[seat] + 1
    ensures seat in seats ==> multiset(SeatReleased(seats, seat))[seat] >= 2
  {
    assert SeatReleased(seats, seat) == seats + [seat];
  }
}
