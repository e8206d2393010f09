/** The parts of the facility record (Facility.js) that the booking and
    facility handlers read or write. */
module FacilityModel {
  import opened Base

  /** A court embedded in a facility; `pricePerHour` is in cents. */
  datatype Court = Court(id: Id, name: string, sportType: string, pricePerHour: int, isActive: bool)

  datatype Facility = Facility(
    id: Id,
    name: string,
    description: string,
    owner: Id,
    courts: seq<Court>,
    isApproved: bool,
    isActive: bool)

  /** `facility.courts.id(courtId)`: the first embedded court with that id. */
  function CourtById(courts: seq<Court>, courtId: Id): (r: Option<Court>)
    ensures r.Some? ==> r.value in courts && r.value.id == courtId
    ensures r.None? <==> forall c :: c in courts ==> c.id != courtId
  {
    if courts == [] then None
    else if courts[0].id == courtId then Some(courts[0])
    else CourtById(courts[1..], courtId)
  }
}
