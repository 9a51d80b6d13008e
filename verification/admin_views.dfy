/** The back office: the signed-in guard, sign-in and logout, adding a bike
    copied from an existing one, deleting a bike, and the manual status change
    whose return transition closes the bike's open rental. */
module AdminViews {
  import opened Wrappers
  import opened Models
  import opened Http
  import opened Sessions
  import Views

  const ADMIN_LOGIN: string := "admin_login"
  const ADMIN_DASHBOARD: string := "admin_dashboard"
  const ADMIN_VEHICLES: string := "admin_vehicles"

  const ADD_INVENTORY_PAGE: string := "myshop_template/admin/add_inventory.html"
  const CONFIRM_DELETE_PAGE: string := "myshop_template/admin/confirm_delete.html"

  /** The three entries a sign-in puts into the session. */
  const ADMIN_KEYS: set<string> := {ADMIN_ID, ADMIN_ROLE, ADMIN_USERNAME}

  predicate SignedIn(s: Session) {
    ADMIN_ID in s
  }

  /** The guard around every back-office page: without an admin key the page
      is not run at all and the visitor is sent to the login page. */
  function AdminRequired(st: State, view: State -> Outcome): (o: Outcome)
    ensures !SignedIn(st.session) ==> o == Outcome(Redirect(ADMIN_LOGIN), st)
    ensures SignedIn(st.session) ==> o == view(st)
  {
    if !SignedIn(st.session) then Outcome(Redirect(ADMIN_LOGIN), st) else view(st)
  }

  /** A successful login of admin `id`: the session gains the three admin
      entries and the visitor goes to the dashboard. */
  function SignIn(st: State, id: nat, admin: Admin): (o: Outcome)
    ensures o.response == Redirect(ADMIN_DASHBOARD)
    ensures o.state.db == st.db
    ensures SignedIn(o.state.session)
    ensures OnlyTouches(st.session, o.state.session, ADMIN_KEYS)
    ensures o.state.session.Keys == st.session.Keys + ADMIN_KEYS
    ensures o.state.session[ADMIN_ID] == AdminIdValue(id)
    ensures o.state.session[ADMIN_ROLE] == RoleValue(admin.role)
    ensures o.state.session[ADMIN_USERNAME] == UsernameValue(admin.username)
    ensures WellTyped(st.session) ==> WellTyped(o.state.session)
  {
    var s := st.session[ADMIN_ID := AdminIdValue(id)]
                       [ADMIN_ROLE := RoleValue(admin.role)]
                       [ADMIN_USERNAME := UsernameValue(admin.username)];
    Outcome(Redirect(ADMIN_DASHBOARD), st.(session := s))
  }

  /** Logout drops whichever of the three admin entries are present, keeps
      every other entry, and goes to the login page. */
  function AdminLogout(st: State): (o: Outcome)
    ensures o.response == Redirect(ADMIN_LOGIN)
    ensures o.state.db == st.db
    ensures o.state.session.Keys == st.session.Keys - ADMIN_KEYS
    ensures OnlyTouches(st.session, o.state.session, ADMIN_KEYS)
    ensures !SignedIn(o.state.session)
    ensures WellTyped(st.session) ==> WellTyped(o.state.session)
  {
    Outcome(Redirect(ADMIN_LOGIN), st.(session := st.session - ADMIN_KEYS))
  }

  /** The bike added by copying `source`: the posted plate, the source's model
      name, category and image, an empty colour, and status Available. */
  predicate CopiedFrom(b: Bike, source: Bike, plate: string) {
    && b.licensePlate == plate
    && b.modelName == source.modelName
    && b.category == source.category
    && b.imageUrl == source.imageUrl
    && b.color == ""
    && b.status == Available
  }

  /** Adds one bike copied from the bike whose key is posted. An unknown
      source, or no posted plate, re-shows the form with an error and writes
      nothing. */
  function AddInventory(st: State, req: Request): (o: Outcome)
    ensures o.state.session == st.session
    ensures req.verb != Post ==> o == Outcome(Render(ADD_INVENTORY_PAGE), st)
    ensures req.verb == Post ==>
      (o.response == Redirect(ADMIN_VEHICLES) <==>
         && Field(req, "source_bike_id").Some?
         && Views.FindBike(st.db, Field(req, "source_bike_id").value).Some?
         && Field(req, "license_plate").Some?)
    ensures o.response != Redirect(ADMIN_VEHICLES) ==> o.state == st
    ensures o.response == Redirect(ADMIN_VEHICLES) ==>
      var db' := o.state.db;
      var id := st.db.bikes.next;
      var source := Views.FindBike(st.db, Field(req, "source_bike_id").value).value;
      && db'.categories == st.db.categories
      && db'.customers == st.db.customers
      && db'.rentals == st.db.rentals
      && id !in st.db.bikes.rows
      && id in db'.bikes.rows
      && db'.bikes.rows == st.db.bikes.rows[id := db'.bikes.rows[id]]
      && CopiedFrom(db'.bikes.rows[id], st.db.bikes.rows[source], Field(req, "license_plate").value)
    ensures Valid(st.db) ==> Valid(o.state.db)
  {
    if req.verb != Post then
      Outcome(Render(ADD_INVENTORY_PAGE), st)
    else
      var sourceKey := Field(req, "source_bike_id");
      var plate := Field(req, "license_plate");
      if sourceKey.None? then
        Outcome(RenderError(ADD_INVENTORY_PAGE), st)
      else
        match Views.FindBike(st.db, sourceKey.value)
        case None => Outcome(RenderError(ADD_INVENTORY_PAGE), st)
        case Some(sourceId) =>
          if plate.None? then
            Outcome(RenderError(ADD_INVENTORY_PAGE), st)
          else
            var source := st.db.bikes.rows[sourceId];
            var bike := Bike(plate.value, source.modelName, "", source.imageUrl, Available, source.category);
            var bikes := Insert(st.db.bikes, bike).1;
            Outcome(Redirect(ADMIN_VEHICLES), st.(db := st.db.(bikes := bikes)))
  }

  /** Deletes a bike on POST, with no check of its status or history; its
      rentals go with it. */
  function DeleteVehicle(st: State, req: Request, id: nat): (o: Outcome)
    ensures o.state.session == st.session
    ensures id !in st.db.bikes.rows ==> o == Outcome(NotFound, st)
    ensures id in st.db.bikes.rows && req.verb != Post ==> o == Outcome(Render(CONFIRM_DELETE_PAGE), st)
    ensures id in st.db.bikes.rows && req.verb == Post ==>
      && o.response == Redirect(ADMIN_VEHICLES)
      && o.state.db == DeleteBike(st.db, id)
  {
    if id !in st.db.bikes.rows then
      Outcome(NotFound, st)
    else if req.verb != Post then
      Outcome(Render(CONFIRM_DELETE_PAGE), st)
    else
      Outcome(Redirect(ADMIN_VEHICLES), st.(db := DeleteBike(st.db, id)))
  }

  /** A rental of `bike` that is still Active and has no return date. */
  predicate IsOpenFor(r: Rental, bike: nat) {
    r.bike == bike && r.state == Active && r.actualReturnDate.None?
  }

  /** `k` is an open rental of `bike` with the latest start among them. */
  predicate IsLatestOpen(t: Table<Rental>, bike: nat, k: nat) {
    && k in t.rows
    && IsOpenFor(t.rows[k], bike)
    && forall j :: j in t.rows && IsOpenFor(t.rows[j], bike) ==> t.rows[j].startDate <= t.rows[k].startDate
  }

  predicate NoneOpen(t: Table<Rental>, bike: nat) {
    forall j :: j in t.rows ==> !IsOpenFor(t.rows[j], bike)
  }

  /** The first of `ids` whose start is latest: the first row of the query
      ordered by descending start. */
  function Latest(rows: map<nat, Rental>, ids: seq<nat>): (r: Option<nat>)
    requires forall i :: i in ids ==> i in rows
    ensures r.Some? <==> |ids| > 0
    ensures r.Some? ==> r.value in ids
    ensures r.Some? ==> forall i :: i in ids ==> rows[i].startDate <= rows[r.value].startDate
  {
    if |ids| == 0 then None
    else
      match Latest(rows, ids[1..])
      case None => Some(ids[0])
      case Some(j) => if rows[ids[0]].startDate < rows[j].startDate then Some(j) else Some(ids[0])
  }

  /** The rental after it is returned at `now`. */
  function Close(r: Rental, now: int): Rental {
    r.(actualReturnDate := Some(now), state := Done)
  }

  /** The rental table after a return of `bike` at `now`: the latest open
      rental of the bike is closed and nothing else changes; with no open
      rental nothing changes at all. */
  function CloseLatestOpen(t: Table<Rental>, bike: nat, now: int): (t': Table<Rental>)
    ensures t'.rows.Keys == t.rows.Keys
    ensures forall k :: k in t.rows ==>
      t'.rows[k].bike == t.rows[k].bike && t'.rows[k].customer == t.rows[k].customer
    ensures NoneOpen(t, bike) ==> t' == t
    ensures !NoneOpen(t, bike) ==>
      exists k :: IsLatestOpen(t, bike, k) && t' == Put(t, k, Close(t.rows[k], now))
  {
    var open := Select(t, (r: Rental) => IsOpenFor(r, bike));
    match Latest(t.rows, open)
    case None => t
    case Some(k) =>
      assert IsLatestOpen(t, bike, k);
      Put(t, k, Close(t.rows[k], now))
  }

  /** The writes of a status change on an existing bike: store the new status,
      and on Rented to Available close the bike's latest open rental. */
  function ApplyStatus(db: Db, bike: nat, after: Status, now: int): (db': Db)
    requires bike in db.bikes.rows
    ensures db'.categories == db.categories && db'.customers == db.customers
    ensures db'.bikes == Put(db.bikes, bike, db.bikes.rows[bike].(status := after))
    ensures !(db.bikes.rows[bike].status == Rented && after == Available) ==> db'.rentals == db.rentals
    ensures db.bikes.rows[bike].status == Rented && after == Available ==>
      db'.rentals == CloseLatestOpen(db.rentals, bike, now)
    ensures db'.rentals.rows.Keys == db.rentals.rows.Keys
    ensures forall k :: k in db.rentals.rows ==>
      db'.rentals.rows[k].bike == db.rentals.rows[k].bike && db'.rentals.rows[k].customer == db.rentals.rows[k].customer
    ensures Valid(db) ==> Valid(db')
  {
    var bikes := Put(db.bikes, bike, db.bikes.rows[bike].(status := after));
    var rentals := if db.bikes.rows[bike].status == Rented && after == Available
                   then CloseLatestOpen(db.rentals, bike, now)
                   else db.rentals;
    assert Valid(db) ==> Valid(Db(db.categories, bikes, db.customers, rentals)) by {
      if Valid(db) {
        forall b | b in bikes.rows ensures bikes.rows[b].category in db.categories.rows {
          assert bikes.rows[b].category == db.bikes.rows[b].category;
        }
      }
    }
    Db(db.categories, bikes, db.customers, rentals)
  }

  /** The manual status change. A POST always stores the posted status; only
      when it turns a Rented bike Available is a rental touched, the bike's
      latest open one, which is closed at `now`. Anything but a POST is
      refused with a 400. */
  function UpdateStatus(st: State, req: Request, bike: nat, now: int): (o: Outcome)
    ensures o.state.session == st.session
    ensures o.state.db.categories == st.db.categories && o.state.db.customers == st.db.customers
    ensures req.verb != Post ==> o == Outcome(Json(false, 400), st)
    ensures req.verb == Post && bike !in st.db.bikes.rows ==> o == Outcome(NotFound, st)
    ensures req.verb == Post && bike in st.db.bikes.rows && Field(req, "status").None? ==>
      o == Outcome(ServerError, st)
    ensures req.verb == Post && bike in st.db.bikes.rows && Field(req, "status").Some? ==>
      var before := st.db.bikes.rows[bike].status;
      var after := FromLabel(Field(req, "status").value);
      && o.response == Json(true, 200)
      && o.state.db.bikes == Put(st.db.bikes, bike, st.db.bikes.rows[bike].(status := after))
      && (!(before == Rented && after == Available) ==> o.state.db.rentals == st.db.rentals)
      && (before == Rented && after == Available && NoneOpen(st.db.rentals, bike) ==>
            o.state.db.rentals == st.db.rentals)
      && (before == Rented && after == Available && !NoneOpen(st.db.rentals, bike) ==>
            exists k :: IsLatestOpen(st.db.rentals, bike, k)
              && o.state.db.rentals == Put(st.db.rentals, k, Close(st.db.rentals.rows[k], now)))
    ensures Valid(st.db) ==> Valid(o.state.db)
  {
    if req.verb != Post then
      Outcome(Json(false, 400), st)
    else if bike !in st.db.bikes.rows then
      Outcome(NotFound, st)
    else
      match Field(req, "status")
      case None => Outcome(ServerError, st)
      case Some(posted) =>
        Outcome(Json(true, 200), st.(db := ApplyStatus(st.db, bike, FromLabel(posted), now)))
  }

  /** The status-change page behind the guard. */
  function UpdateStatusView(st: State, req: Request, bike: nat, now: int): (o: Outcome)
    ensures !SignedIn(st.session) ==> o == Outcome(Redirect(ADMIN_LOGIN), st)
    ensures SignedIn(st.session) ==> o == UpdateStatus(st, req, bike, now)
  {
    AdminRequired(st, (s: State) => UpdateStatus(s, req, bike, now))
  }

  /** The add-inventory page behind the guard. */
  function AddInventoryView(st: State, req: Request): (o: Outcome)
    ensures !SignedIn(st.session) ==> o == Outcome(Redirect(ADMIN_LOGIN), st)
    ensures SignedIn(st.session) ==> o == AddInventory(st, req)
  {
    AdminRequired(st, (s: State) => AddInventory(s, req))
  }

  /** The delete page behind the guard. */
  function DeleteVehicleView(st: State, req: Request, id: nat): (o: Outcome)
    ensures !SignedIn(st.session) ==> o == Outcome(Redirect(ADMIN_LOGIN), st)
    ensures SignedIn(st.session) ==> o == DeleteVehicle(st, req, id)
  {
    AdminRequired(st, (s: State) => DeleteVehicle(s, req, id))
  }
}
