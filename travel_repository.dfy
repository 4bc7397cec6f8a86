/**
 * The in-memory travel store
 * (src/infra/repositories/in-memory/in-memory-travel-repository.ts): a list
 * of Travel objects that grows by `push` and shrinks by `splice`, beside a
 * fixed list of three bus stations that its city filters index into.
 */
module TravelRepository {
  import opened Nullable
  import JsArray
  import opened TravelEntity
  import opened BusStationEntity

  /** The store's built-in stations: ids 1, 2, 3 sit at array positions 0, 1, 2. */
  const Fixture: seq<BusStation> := [
    BusStation(Some(1), "Rodoviária do Tiête", "São Paulo", "SP"),
    BusStation(Some(2), "Rodoviária de Embu das Artes", "São Paulo", "SP"),
    BusStation(Some(3), "Rodoviária Américo Fontenelle", "Rio de Janeiro", "RJ")
  ]

  /** The travels' current ids, position by position. */
  function Ids(ts: seq<Travel>): (r: seq<Option<int>>)
    reads set t | t in ts
    ensures |r| == |ts| && forall i :: 0 <= i < |ts| ==> r[i] == ts[i].id
  {
    seq(|ts|, i requires 0 <= i < |ts| reads set t | t in ts => ts[i].id)
  }

  /**
   * The filter callbacks of the three city/date finds have a block body
   * that evaluates `busStations[i].city === city` (and, for the date find,
   * a date comparison after `&&`) and returns nothing: reading `.city` of
   * an undefined entry throws, and otherwise the callback yields undefined.
   */
  function StationCallback(busStations: seq<BusStation>, i: int): JsArray.Completion<JsArray.JsValue> {
    match JsArray.At(busStations, i)
    case None => JsArray.TypeError
    case Some(_) => JsArray.Normal(JsArray.Undefined)
  }

  /**
   * `ts.filter(callback)` for that callback, where stationIds[i] is the
   * station id the callback uses for ts[i]: filter keeps an element when
   * the callback's value is truthy, and stops at the first throw.
   */
  function FilterWithoutReturn(ts: seq<Travel>, stationIds: seq<int>, busStations: seq<BusStation>)
    : (r: JsArray.Completion<seq<Travel>>)
    requires |stationIds| == |ts|
    ensures r.Normal? ==> r.value == []
    ensures r.TypeError? <==> exists i :: 0 <= i < |stationIds| && !(0 <= stationIds[i] < |busStations|)
    decreases |ts|
  {
    if ts == [] then JsArray.Normal([])
    else
      var head := ts[0];
      match StationCallback(busStations, stationIds[0])
      case TypeError => JsArray.TypeError
      case Normal(v) =>
        var rest := FilterWithoutReturn(ts[1..], stationIds[1..], busStations);
        assert rest.TypeError? <==> exists i :: 1 <= i < |stationIds| && !(0 <= stationIds[i] < |busStations|) by {
          if rest.TypeError? {
            var i :| 0 <= i < |stationIds[1..]| && !(0 <= stationIds[1..][i] < |busStations|);
            assert stationIds[i + 1] == stationIds[1..][i];
          }
          if exists i :: 1 <= i < |stationIds| && !(0 <= stationIds[i] < |busStations|) {
            var i :| 1 <= i < |stationIds| && !(0 <= stationIds[i] < |busStations|);
            assert stationIds[1..][i - 1] == stationIds[i];
          }
        }
        match rest
        case TypeError => JsArray.TypeError
        case Normal(kept) => JsArray.Normal(if JsArray.Truthy(v) then [head] + kept else kept)
  }

  class InMemoryTravelRepository {
    var travels: seq<Travel>
    const busStations: seq<BusStation>

    constructor()
      ensures travels == [] && busStations == Fixture
    {
      travels := [];
      busStations := Fixture;
    }

    /** `findAll`: the stored list itself, in insertion order (see `Create`). */
    function FindAll(): (r: seq<Travel>)
      reads this
      ensures r == travels
    {
      travels
    }

    /** `findByOriginCity`: never returns a travel; throws when a travel's departure station id is not a fixture position. */
    function FindByOriginCity(city: string): (r: JsArray.Completion<seq<Travel>>)
      reads this
      ensures r.Normal? ==> r.value == []
      ensures r.TypeError? <==> exists t :: t in travels && !(0 <= t.departureStationId < |busStations|)
    {
      var r := FilterWithoutReturn(travels, JsArray.Keys(travels, (t: Travel) => t.departureStationId), busStations);
      assert r.TypeError? ==> exists t :: t in travels && !(0 <= t.departureStationId < |busStations|) by {
        if r.TypeError? {
          var i :| 0 <= i < |travels| && !(0 <= JsArray.Keys(travels, (t: Travel) => t.departureStationId)[i] < |busStations|);
          assert travels[i] in travels;
        }
      }
      r
    }

    /** `findByDestinationCity`: never returns a travel; throws when a travel's arrival station id is not a fixture position. */
    function FindByDestinationCity(city: string): (r: JsArray.Completion<seq<Travel>>)
      reads this
      ensures r.Normal? ==> r.value == []
      ensures r.TypeError? <==> exists t :: t in travels && !(0 <= t.arrivalStationId < |busStations|)
    {
      var r := FilterWithoutReturn(travels, JsArray.Keys(travels, (t: Travel) => t.arrivalStationId), busStations);
      assert r.TypeError? ==> exists t :: t in travels && !(0 <= t.arrivalStationId < |busStations|) by {
        if r.TypeError? {
          var i :| 0 <= i < |travels| && !(0 <= JsArray.Keys(travels, (t: Travel) => t.arrivalStationId)[i] < |busStations|);
          assert travels[i] in travels;
        }
      }
      r
    }

    /**
     * `findByDepartureDate(date, city)`: the callback tests the ARRIVAL
     * station first, so it behaves as `findByDestinationCity`: never
     * returns a travel, throws on an arrival station id outside the fixture.
     */
    function FindByDepartureDate(date: int, city: string): (r: JsArray.Completion<seq<Travel>>)
      reads this
      ensures r.Normal? ==> r.value == []
      ensures r.TypeError? <==> exists t :: t in travels && !(0 <= t.arrivalStationId < |busStations|)
    {
      FindByDestinationCity(city)
    }

    /** Position of the first travel with that id, -1 when none has it (`findIndex`). */
    function IndexOfId(id: int): (k: int)
      reads this, set t | t in travels
      ensures -1 <= k < |travels|
      ensures k == -1 <==> forall t :: t in travels ==> t.id != Some(id)
      ensures 0 <= k ==> travels[k].id == Some(id)
      ensures 0 <= k ==> forall j :: 0 <= j < k ==> travels[j].id != Some(id)
    {
      JsArray.IndexOf(Ids(travels), Some(id))
    }

    /**
     * `findById`: null when no stored travel has that id; otherwise a new
     * Travel object (`Travel.restore`) holding the first match's data.
     */
    method FindById(id: int) returns (t: Travel?)
      ensures t == null <==> IndexOfId(id) == -1
      ensures t != null ==> fresh(t) && SameData(t, travels[IndexOfId(id)]) && t.id == Some(id)
    {
      var k := IndexOfId(id);
      if k == -1 {
        return null;
      }
      var u := travels[k];
      t := new Travel.Restore(id, u.departureDate, u.arrivalDate, u.busSeat, u.price, u.distanceKm,
                              u.duration, u.departureStationId, u.arrivalStationId, u.availableSeats);
    }

    /**
     * `create`: writes a random id in 0 .. 1000 (not necessarily unique)
     * into the given travel and appends that same object. No seat list
     * changes.
     */
    method Create(travel: Travel) returns (r: Travel)
      modifies this, travel`id
      ensures r == travel && travels == old(travels) + [travel]
      ensures FindAll() == old(FindAll()) + [travel]
      ensures travel.id.Some? && 0 <= travel.id.value <= 1000
      ensures forall t :: t in old(travels) && t != travel ==> t.id == old(t.id)
      ensures forall t :: t in travels ==> t.availableSeats == old(t.availableSeats)
    {
      var n :| 0 <= n <= 1000;
      travel.id := Some(n);
      travels := travels + [travel];
      r := travel;
    }

    /**
     * `delete`: `splice(findIndex(id), 1)`, returning the stored object. A
     * present id loses its first match; an absent id makes findIndex -1,
     * so the LAST travel goes and undefined is returned. No travel's
     * fields change.
     */
    method Delete(id: int) returns (r: Travel?)
      modifies this
      ensures old(IndexOfId(id)) >= 0 ==>
        var k := old(IndexOfId(id));
        r == old(travels)[k] && travels == old(travels)[..k] + old(travels)[k + 1..]
      ensures old(IndexOfId(id)) == -1 ==>
        r == null && travels == if old(travels) == [] then [] else old(travels)[..|old(travels)| - 1]
    {
      var ids := Ids(travels);
      var k := JsArray.IndexOf(ids, Some(id));
      r := if 0 <= k then travels[k] else null;
      if Some(id) in ids {
        JsArray.SpliceAtFirstMatch(travels, ids, Some(id));
      } else {
        JsArray.SpliceWhenNoMatch(travels, ids, Some(id));
      }
      travels := JsArray.Splice1(travels, k);
    }
  }
}
