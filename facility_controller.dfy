/** The facility handlers (backend/controllers/facilityController.js): the
    public listing, lookup by id, creation by an owner, the owner-or-admin
    update, and the per-day availability of a facility's courts. */
module FacilityController {
  import opened Base
  import opened BookingModel
  import opened FacilityModel
  import opened Ledger
  import opened BookingController

  /** The fields of a facility a request body may carry; `None` is a field
      the body leaves out. */
  datatype FacilityBody = FacilityBody(
    name: Option<string>,
    description: Option<string>,
    owner: Option<Id>,
    courts: Option<seq<Court>>,
    isApproved: Option<bool>,
    isActive: Option<bool>)

  /** The `required` validators of the schema: a name, a description, and a
      name and sport type for every court, none of them empty. */
  predicate ValidFacility(f: Facility) {
    && f.name != "" && f.description != ""
    && forall c :: c in f.courts ==> c.name != "" && c.sportType != ""
  }

  // ---------------------------------------------------------------------------
  // list and getById

  /** The page size when the query gives none. */
  const DefaultLimit: int := 12

  /** `list`: only approved and active facilities, paged. */
  function List(db: Db, page: Option<int>, limit: Option<int>): (r: Reply<Page<Facility>>)
    ensures var p, l := OrElse(page, 1), OrElse(limit, DefaultLimit);
      && (r.Fail? <==> (p - 1) * l < 0)
      && (r.Ok? ==>
            && (forall f :: f in r.value.items ==> f in db.facilities && f.isApproved && f.isActive)
            && (l > 0 ==> |r.value.items| <= l)
            && r.value.currentPage == p
            && r.value.total == |Filter(db.facilities, (f: Facility) => f.isApproved && f.isActive)|
            && r.value.totalPages == TotalPages(r.value.total, l))
  {
    var listed := Filter(db.facilities, (f: Facility) => f.isApproved && f.isActive);
    Paginate(listed, OrElse(page, 1), OrElse(limit, DefaultLimit))
  }

  /** With a positive limit, the `i`-th listed facility is on page
      `i / limit + 1`. */
  lemma ListCoversAll(db: Db, limit: int, i: nat)
    requires limit > 0
    requires i < |Filter(db.facilities, (f: Facility) => f.isApproved && f.isActive)|
    ensures var listed := Filter(db.facilities, (f: Facility) => f.isApproved && f.isActive);
      var r := List(db, Some(i / limit + 1), Some(limit));
      r.Ok? && i % limit < |r.value.items| && r.value.items[i % limit] == listed[i]
  {
    var listed := Filter(db.facilities, (f: Facility) => f.isApproved && f.isActive);
    PageOfItem(listed, limit, i);
  }

  /** `getById`. */
  function GetById(db: Db, id: Id): (r: Reply<Facility>)
    ensures r.Fail? <==> FacilityIndex(db.facilities, id).None?
    ensures r.Fail? ==> r == Fail(404, "Facility not found")
    ensures r.Ok? ==> r.value in db.facilities && r.value.id == id
  {
    match FacilityIndex(db.facilities, id)
    case None => Fail(404, "Facility not found")
    case Some(i) => Ok(db.facilities[i])
  }

  // ---------------------------------------------------------------------------
  // create

  /** The document `create` builds from a body: the body's fields with the
      schema defaults, and the caller as owner whatever the body says. */
  function FacilityFromBody(id: Id, owner: Id, body: FacilityBody): (f: Facility)
    ensures f.id == id && f.owner == owner
    ensures body.name.Some? ==> f.name == body.name.value
    ensures body.description.Some? ==> f.description == body.description.value
    ensures body.courts.Some? ==> f.courts == body.courts.value
    ensures body.name.None? ==> f.name == ""
    ensures body.description.None? ==> f.description == ""
    ensures body.courts.None? ==> f.courts == []
    ensures f.isApproved == (body.isApproved == Some(true))
    ensures f.isActive == (body.isActive != Some(false))
  {
    Facility(id, OrElse(body.name, ""), OrElse(body.description, ""), owner,
             OrElse(body.courts, []), OrElse(body.isApproved, false), OrElse(body.isActive, true))
  }

  /** `create`: a document that fails validation is a server error and
      nothing is stored; otherwise the new facility is appended. */
  function Create(db: Db, requester: Id, body: FacilityBody): (out: Outcome<Facility>)
    ensures out.reply.Fail? ==> out.db == db && out.reply == Fail(500, "Server error")
    ensures out.reply.Ok? <==> ValidFacility(FacilityFromBody(db.nextId, requester, body))
    ensures out.reply.Ok? ==>
      && out.reply.value == FacilityFromBody(db.nextId, requester, body)
      && out.reply.value.owner == requester
      && out.reply.value.id == db.nextId
      && out.db == db.(facilities := db.facilities + [out.reply.value], nextId := db.nextId + 1)
    ensures WellFormed(db) ==> WellFormed(out.db)
  {
    var f := FacilityFromBody(db.nextId, requester, body);
    if !ValidFacility(f) then Outcome(Fail(500, "Server error"), db)
    else Outcome(Ok(f), db.(facilities := db.facilities + [f], nextId := db.nextId + 1))
  }

  /** A facility just created is found by its id. */
  lemma CreateThenGetById(db: Db, requester: Id, body: FacilityBody)
    requires WellFormed(db)
    requires Create(db, requester, body).reply.Ok?
    ensures var out := Create(db, requester, body);
      GetById(out.db, out.reply.value.id) == Ok(out.reply.value)
  {
    var out := Create(db, requester, body);
    var fs := out.db.facilities;
    forall j | 0 <= j < |db.facilities|
      ensures fs[j].id != db.nextId
    {
      assert fs[j] == db.facilities[j];
    }
    FacilityIndexAt(fs, db.nextId, |db.facilities|);
  }

  /** The body is spread into the document, so a new facility that names
      itself approved is listed at once, without an administrator. */
  lemma CreateSelfApproved(db: Db, requester: Id, body: FacilityBody)
    requires body.isApproved == Some(true) && body.isActive.None?
    requires Create(db, requester, body).reply.Ok?
    ensures var out := Create(db, requester, body);
      out.reply.value in Filter(out.db.facilities, (f: Facility) => f.isApproved && f.isActive)
  {
  }

  // ---------------------------------------------------------------------------
  // update

  /** `findByIdAndUpdate(id, body)`: every field the body carries replaces
      the stored one, the owner included. */
  function Patch(f: Facility, body: FacilityBody): (r: Facility)
    ensures r.id == f.id
    ensures r.name == OrElse(body.name, f.name) && r.description == OrElse(body.description, f.description)
    ensures r.owner == OrElse(body.owner, f.owner) && r.courts == OrElse(body.courts, f.courts)
    ensures r.isApproved == OrElse(body.isApproved, f.isApproved) && r.isActive == OrElse(body.isActive, f.isActive)
  {
    Facility(f.id, OrElse(body.name, f.name), OrElse(body.description, f.description), OrElse(body.owner, f.owner),
             OrElse(body.courts, f.courts), OrElse(body.isApproved, f.isApproved), OrElse(body.isActive, f.isActive))
  }

  /** The update validators reject a body that sets a required field to the
      empty string, or a court without a name or sport type. */
  predicate ValidPatch(body: FacilityBody) {
    && body.name != Some("") && body.description != Some("")
    && (body.courts.Some? ==> forall c :: c in body.courts.value ==> c.name != "" && c.sportType != "")
  }

  /** Who may change a facility: an administrator, or its owner. */
  predicate MayEdit(requester: Requester, f: Facility) {
    requester.role == Admin || f.owner == requester.id
  }

  /** `update`: 404 for an unknown facility, 403 unless the caller may edit
      it, a server error for a body the validators reject; otherwise the
      stored facility is patched in place. */
  function Update(db: Db, requester: Requester, id: Id, body: FacilityBody): (out: Outcome<Facility>)
    ensures out.reply.Fail? ==> out.db == db
    ensures FacilityIndex(db.facilities, id).None? ==> out.reply == Fail(404, "Facility not found")
    ensures FacilityIndex(db.facilities, id).Some? ==>
      var i := FacilityIndex(db.facilities, id).value;
      && (!MayEdit(requester, db.facilities[i]) ==> out.reply == Fail(403, "Access denied"))
      && (MayEdit(requester, db.facilities[i]) && !ValidPatch(body) ==> out.reply == Fail(500, "Server error"))
      && (out.reply.Ok? <==> MayEdit(requester, db.facilities[i]) && ValidPatch(body))
      && (out.reply.Ok? ==>
            && out.reply.value == Patch(db.facilities[i], body)
            && out.db == db.(facilities := db.facilities[i := out.reply.value]))
    ensures WellFormed(db) ==> WellFormed(out.db)
  {
    match FacilityIndex(db.facilities, id)
    case None => Outcome(Fail(404, "Facility not found"), db)
    case Some(i) =>
      var f := db.facilities[i];
      if !MayEdit(requester, f) then Outcome(Fail(403, "Access denied"), db)
      else if !ValidPatch(body) then Outcome(Fail(500, "Server error"), db)
      else
        var updated := Patch(f, body);
        Outcome(Ok(updated), db.(facilities := db.facilities[i := updated]))
  }

  /** A successful update was made by an administrator or by the owner the
      facility had before it; any other caller leaves every facility as it
      was. */
  lemma UpdateOnlyByOwnerOrAdmin(db: Db, requester: Requester, id: Id, body: FacilityBody)
    requires requester.role != Admin
    requires forall f :: f in db.facilities && f.id == id ==> f.owner != requester.id
    ensures Update(db, requester, id, body).db.facilities == db.facilities
  {
  }

  /** A valid patch is still valid on the facility it produces. */
  lemma PatchKeepsValid(f: Facility, body: FacilityBody)
    requires ValidFacility(f) && ValidPatch(body)
    ensures ValidFacility(Patch(f, body))
  {
  }

  /** After an update, the facility is read back as patched. */
  lemma UpdateThenGetById(db: Db, requester: Requester, id: Id, body: FacilityBody)
    requires Update(db, requester, id, body).reply.Ok?
    ensures var out := Update(db, requester, id, body);
      GetById(out.db, id) == Ok(out.reply.value)
  {
    var out := Update(db, requester, id, body);
    var i := FacilityIndex(db.facilities, id).value;
    var fs := out.db.facilities;
    forall j | 0 <= j < i
      ensures fs[j].id != id
    {
      assert fs[j] == db.facilities[j];
    }
    FacilityIndexAt(fs, id, i);
  }

  // ---------------------------------------------------------------------------
  // availability

  /** The availability query: bookings of the facility on the day that hold
      their slot, and of the given court when one is named. */
  predicate BookedOn(b: Booking, facilityId: Id, date: int, courtId: Option<Id>) {
    && b.facility == facilityId && b.date == date && BlocksSlot(b)
    && (courtId.None? || b.court.id == courtId.value)
  }

  /** `availability`: 404 for an unknown facility, otherwise the bookings
      that hold a slot of it on that day. */
  function Availability(db: Db, facilityId: Id, date: int, courtId: Option<Id>): (r: Reply<seq<Booking>>)
    ensures r.Fail? <==> FacilityIndex(db.facilities, facilityId).None?
    ensures r.Fail? ==> r == Fail(404, "Facility not found")
    ensures r.Ok? ==> forall b :: b in r.value <==> b in db.bookings && BookedOn(b, facilityId, date, courtId)
  {
    if FacilityIndex(db.facilities, facilityId).None? then Fail(404, "Facility not found")
    else Ok(Filter(db.bookings, (b: Booking) => BookedOn(b, facilityId, date, courtId)))
  }

  /** Naming a court narrows the availability answer. */
  lemma AvailabilityCourtSubset(db: Db, facilityId: Id, date: int, courtId: Id)
    requires FacilityIndex(db.facilities, facilityId).Some?
    ensures forall b :: b in Availability(db, facilityId, date, Some(courtId)).value ==>
      b in Availability(db, facilityId, date, None).value
  {
  }

  /** The availability of a court and the conflict check of a booking agree:
      a request is refused as conflicting exactly when a booking the
      availability query lists for that court and day intersects it. */
  lemma AvailabilityExplainsConflict(db: Db, req: BookingRequest)
    requires FacilityIndex(db.facilities, req.facilityId).Some?
    ensures var listed := Availability(db, req.facilityId, req.date, Some(req.courtId)).value;
      FindConflict(db.bookings, req).Some? <==>
        exists b :: b in listed && StrLess(b.startTime, req.endTime) && StrLess(req.startTime, b.endTime)
  {
    var listed := Availability(db, req.facilityId, req.date, Some(req.courtId)).value;
    if FindConflict(db.bookings, req).Some? {
      var b := db.bookings[FindConflict(db.bookings, req).value];
      assert Conflicts(b, req);
      assert b in listed;
    } else {
      forall b | b in listed
        ensures !(StrLess(b.startTime, req.endTime) && StrLess(req.startTime, b.endTime))
      {
        var i :| 0 <= i < |db.bookings| && db.bookings[i] == b;
        assert !Conflicts(db.bookings[i], req);
      }
    }
  }

  // ---------------------------------------------------------------------------
  // The handlers, as steps on the shared store

  /** `POST /facilities`. */
  method HandleCreate(store: Store, requester: Id, body: FacilityBody) returns (reply: Reply<Facility>)
    requires store.Valid()
    modifies store
    ensures store.Valid()
    ensures reply == Create(old(store.Snapshot()), requester, body).reply
    ensures store.Snapshot() == Create(old(store.Snapshot()), requester, body).db
  {
    if !ValidFacility(FacilityFromBody(store.nextId, requester, body)) {
      return Fail(500, "Server error");
    }
    var id := store.FreshId();
    var f := FacilityFromBody(id, requester, body);
    store.facilities := store.facilities + [f];
    reply := Ok(f);
  }

  /** `PUT /facilities/:id`. */
  method HandleUpdate(store: Store, requester: Requester, id: Id, body: FacilityBody) returns (reply: Reply<Facility>)
    requires store.Valid()
    modifies store
    ensures store.Valid()
    ensures reply == Update(old(store.Snapshot()), requester, id, body).reply
    ensures store.Snapshot() == Update(old(store.Snapshot()), requester, id, body).db
  {
    var i := FacilityIndex(store.facilities, id);
    if i.None? {
      return Fail(404, "Facility not found");
    }
    var f := store.facilities[i.value];
    if !MayEdit(requester, f) {
      return Fail(403, "Access denied");
    }
    if !ValidPatch(body) {
      return Fail(500, "Server error");
    }
    f := Patch(f, body);
    store.facilities := store.facilities[i.value := f];
    reply := Ok(f);
  }
}
