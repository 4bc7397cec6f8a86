/**
 * The in-memory bus-station store
 * (src/infra/repositories/in-memory/in-memory-bus-station-repository.ts):
 * a list that grows by `push` and shrinks by `splice`.
 */
module BusStationRepository {
  import opened Nullable
  import JsArray
  import opened BusStationEntity

  /** `s.filter(b => b.city === city)`. */
  function WithCity(s: seq<BusStation>, city: string): (r: seq<BusStation>)
    ensures |r| <= |s|
    ensures forall b :: b in r <==> b in s && b.city == city
  {
    if s == [] then []
    else if s[0].city == city then [s[0]] + WithCity(s[1..], city)
    else WithCity(s[1..], city)
  }

  /** Filtering distributes over appending: a station added last is found last. */
  lemma {:induction false} WithCityAppend(s: seq<BusStation>, b: BusStation, city: string)
    ensures WithCity(s + [b], city) == WithCity(s, city) + (if b.city == city then [b] else [])
  {
    if s == [] {
      assert [b][1..] == [];
    } else {
      assert (s + [b])[1..] == s[1..] + [b];
      WithCityAppend(s[1..], b, city);
    }
  }

  class InMemoryBusStationRepository {
    var busStations: seq<BusStation>

    constructor()
      ensures busStations == []
    {
      busStations := [];
    }

    /** `findAll`: the stored list itself, in insertion order (see `Create`). */
    function FindAll(): (r: seq<BusStation>)
      reads this
      ensures r == busStations
    {
      busStations
    }

    /** `findByCity`: exactly the stations of that city, in insertion order. */
    function FindByCity(city: string): (r: seq<BusStation>)
      reads this
      ensures forall b :: b in r <==> b in busStations && b.city == city
    {
      WithCity(busStations, city)
    }

    /** Position of the first station with that id, -1 when none has it (`findIndex`). */
    function IndexOfId(id: int): (k: int)
      reads this
      ensures -1 <= k < |busStations|
      ensures k == -1 <==> forall b :: b in busStations ==> b.id != Some(id)
      ensures 0 <= k ==> busStations[k].id == Some(id)
      ensures 0 <= k ==> forall j :: 0 <= j < k ==> busStations[j].id != Some(id)
    {
      JsArray.IndexOf(JsArray.Keys(busStations, (b: BusStation) => b.id), Some(id))
    }

    /** `findByName`: the first station with that name, or null when none has it. */
    function FindByName(name: string): (r: Option<BusStation>)
      reads this
      ensures r.None? <==> forall b :: b in busStations ==> b.name != name
      ensures r.Some? ==>
        var k := JsArray.IndexOf(JsArray.Keys(busStations, (b: BusStation) => b.name), name);
        0 <= k < |busStations| && r.value == busStations[k] && r.value.name == name &&
        forall j :: 0 <= j < k ==> busStations[j].name != name
    {
      JsArray.Find(busStations, JsArray.Keys(busStations, (b: BusStation) => b.name), name)
    }

    /** `findById`: the first station with that id, or null when none has it. */
    function FindById(id: int): (r: Option<BusStation>)
      reads this
      ensures r.None? <==> forall b :: b in busStations ==> b.id != Some(id)
      ensures r.Some? ==> 0 <= IndexOfId(id) && r.value == busStations[IndexOfId(id)]
    {
      JsArray.Find(busStations, JsArray.Keys(busStations, (b: BusStation) => b.id), Some(id))
    }

    /** `create`: gives the station a random id in 0 .. 1000 (not necessarily unique) and appends it. */
    method Create(busStation: BusStation) returns (r: BusStation)
      modifies this
      ensures r.id.Some? && 0 <= r.id.value <= 1000
      ensures r == busStation.(id := r.id)
      ensures busStations == old(busStations) + [r]
      ensures FindAll() == old(FindAll()) + [r]
      ensures forall city :: FindByCity(city) == old(FindByCity(city)) + (if r.city == city then [r] else [])
    {
      var n :| 0 <= n <= 1000;
      r := busStation.(id := Some(n));
      forall city ensures WithCity(busStations + [r], city) == WithCity(busStations, city) + (if r.city == city then [r] else []) {
        WithCityAppend(busStations, r, city);
      }
      busStations := busStations + [r];
    }

    /**
     * `delete`: `splice(findIndex(id), 1)`. A present id loses its first
     * match; an absent id makes findIndex -1, so the LAST station goes and
     * undefined is returned.
     */
    method Delete(id: int) returns (r: Option<BusStation>)
      modifies this
      ensures old(IndexOfId(id)) >= 0 ==>
        var k := old(IndexOfId(id));
        r == Some(old(busStations)[k]) && busStations == old(busStations)[..k] + old(busStations)[k + 1..]
      ensures old(IndexOfId(id)) == -1 ==>
        r == None &&
        busStations == if old(busStations) == [] then [] else old(busStations)[..|old(busStations)| - 1]
    {
      var ids := JsArray.Keys(busStations, (b: BusStation) => b.id);
      var k := JsArray.IndexOf(ids, Some(id));
      r := JsArray.At(busStations, k);
      if Some(id) in ids {
        JsArray.SpliceAtFirstMatch(busStations, ids, Some(id));
      } else {
        JsArray.SpliceWhenNoMatch(busStations, ids, Some(id));
      }
      busStations := JsArray.Splice1(busStations, k);
    }
  }
}
