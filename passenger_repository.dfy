/**
 * The in-memory passenger store
 * (src/infra/repositories/in-memory/in-memory-passenger-repository.ts):
 * a list that grows by `push` and shrinks by `splice`.
 */
module PassengerRepository {
  import opened Nullable
  import JsArray
  import opened PassengerEntity

  class InMemoryPassengerRepository {
    var passengers: seq<Passenger>

    constructor()
      ensures passengers == []
    {
      passengers := [];
    }

    /** `findAll`: the stored list itself, in insertion order (see `Create`). */
    function FindAll(): (r: seq<Passenger>)
      reads this
      ensures r == passengers
    {
      passengers
    }

    /** Position of the first passenger with that id, -1 when none has it (`findIndex`). */
    function IndexOfId(id: int): (k: int)
      reads this
      ensures -1 <= k < |passengers|
      ensures k == -1 <==> forall p :: p in passengers ==> p.id != Some(id)
      ensures 0 <= k ==> passengers[k].id == Some(id)
      ensures 0 <= k ==> forall j :: 0 <= j < k ==> passengers[j].id != Some(id)
    {
      JsArray.IndexOf(JsArray.Keys(passengers, (p: Passenger) => p.id), Some(id))
    }

    /** `findById`: the first passenger with that id, or null when none has it. */
    function FindById(id: int): (r: Option<Passenger>)
      reads this
      ensures r.None? <==> forall p :: p in passengers ==> p.id != Some(id)
      ensures r.Some? ==> 0 <= IndexOfId(id) && r.value == passengers[IndexOfId(id)]
    {
      JsArray.Find(passengers, JsArray.Keys(passengers, (p: Passenger) => p.id), Some(id))
    }

    /** `create`: gives the passenger a random id in 0 .. 1000 (not necessarily unique) and appends it. */
    method Create(passenger: Passenger) returns (r: Passenger)
      modifies this
      ensures r.id.Some? && 0 <= r.id.value <= 1000
      ensures r == passenger.(id := r.id)
      ensures passengers == old(passengers) + [r]
      ensures FindAll() == old(FindAll()) + [r]
    {
      var n :| 0 <= n <= 1000;
      r := passenger.(id := Some(n));
      passengers := passengers + [r];
    }

    /**
     * `delete`: `splice(findIndex(id), 1)`. A present id loses its first
     * match; an absent id makes findIndex -1, so the LAST passenger goes
     * and undefined is returned.
     */
    method Delete(id: int) returns (r: Option<Passenger>)
      modifies this
      ensures old(IndexOfId(id)) >= 0 ==>
        var k := old(IndexOfId(id));
        r == Some(old(passengers)[k]) && passengers == old(passengers)[..k] + old(passengers)[k + 1..]
      ensures old(IndexOfId(id)) == -1 ==>
        r == None &&
        passengers == if old(passengers) == [] then [] else old(passengers)[..|old(passengers)| - 1]
    {
      var ids := JsArray.Keys(passengers, (p: Passenger) => p.id);
      var k := JsArray.IndexOf(ids, Some(id));
      r := JsArray.At(passengers, k);
      if Some(id) in ids {
        JsArray.SpliceAtFirstMatch(passengers, ids, Some(id));
      } else {
        JsArray.SpliceWhenNoMatch(passengers, ids, Some(id));
      }
      passengers := JsArray.Splice1(passengers, k);
    }
  }
}
