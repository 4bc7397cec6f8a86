/** The BusStation record (src/core/entities/bus-station.ts): a named station in a city and state. */
module BusStationEntity {
  import opened Nullable

  datatype BusStation = BusStation(id: Option<int>, name: string, city: string, uf: string)

  /** `BusStation.create`: no id yet, the given fields. */
  function Create(name: string, city: string, uf: string): (b: BusStation)
    ensures b.id == None && b.name == name && b.city == city && b.uf == uf
  {
    BusStation(None, name, city, uf)
  }
}
