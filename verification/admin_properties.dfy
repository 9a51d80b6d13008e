/** Properties of the back office that relate several requests. */
module AdminProperties {
  import opened Wrappers
  import opened Models
  import opened Http
  import opened Sessions
  import Views
  import opened AdminViews

  /** Logging out twice is the same as logging out once. */
  lemma LogoutIdempotent(st: State)
    ensures AdminLogout(AdminLogout(st).state) == AdminLogout(st)
  {
  }

  /** Logging out after a sign-in leaves the session as logging out would have
      without the sign-in: the sign-in leaves no trace. */
  lemma LogoutUndoesSignIn(st: State, id: nat, admin: Admin)
    ensures AdminLogout(SignIn(st, id, admin).state) == AdminLogout(st)
  {
    var s1 := SignIn(st, id, admin).state.session - ADMIN_KEYS;
    var s2 := st.session - ADMIN_KEYS;
    assert s1.Keys == s2.Keys;
  }

  /** After a logout no back-office page runs: each one redirects to the
      login page and changes nothing. */
  lemma GuardAfterLogout(st: State, req: Request, bike: nat, now: int)
    ensures var st' := AdminLogout(st).state;
      && UpdateStatusView(st', req, bike, now) == Outcome(Redirect(ADMIN_LOGIN), st')
      && AddInventoryView(st', req) == Outcome(Redirect(ADMIN_LOGIN), st')
      && DeleteVehicleView(st', req, bike) == Outcome(Redirect(ADMIN_LOGIN), st')
  {
  }

  /** After a sign-in every back-office page runs its own handler. */
  lemma GuardAfterSignIn(st: State, id: nat, admin: Admin, req: Request, bike: nat, now: int)
    ensures var st' := SignIn(st, id, admin).state;
      && UpdateStatusView(st', req, bike, now) == UpdateStatus(st', req, bike, now)
      && AddInventoryView(st', req) == AddInventory(st', req)
      && DeleteVehicleView(st', req, bike) == DeleteVehicle(st', req, bike)
  {
  }

  /** A confirmed booking flushes the whole session, so a back-office sign-in
      in the same session ends with it. */
  lemma CheckoutEndsAdminSession(st: State, req: Request, parse: string -> Option<int>, bike: nat, now: int)
    requires Views.Checkout(st, req, parse).response == Confirmed
    ensures var st' := Views.Checkout(st, req, parse).state;
      UpdateStatusView(st', req, bike, now) == Outcome(Redirect(ADMIN_LOGIN), st')
  {
  }

  /** Sending the same status again, at any later time, changes nothing more:
      the bike is no longer Rented, so no second rental is closed. */
  lemma UpdateStatusIdempotent(st: State, req: Request, bike: nat, now: int, later: int)
    ensures var o := UpdateStatus(st, req, bike, now);
      UpdateStatus(o.state, req, bike, later).state == o.state
  {
    var o := UpdateStatus(st, req, bike, now);
    if req.verb == Post && bike in st.db.bikes.rows && Field(req, "status").Some? {
      var after := FromLabel(Field(req, "status").value);
      assert o.state.db.bikes.rows[bike].status == after;
      assert o.state.db.bikes.rows[bike].(status := after) == o.state.db.bikes.rows[bike];
    }
  }

  /** A return closes exactly one rental when the bike has an open one: after
      it, that rental is no longer open and every other rental is as before. */
  lemma ReturnClosesOne(st: State, req: Request, bike: nat, now: int)
    requires req.verb == Post && bike in st.db.bikes.rows
    requires st.db.bikes.rows[bike].status == Rented && Field(req, "status") == Some("Available")
    requires !NoneOpen(st.db.rentals, bike)
    ensures var t := st.db.rentals;
      var t' := UpdateStatus(st, req, bike, now).state.db.rentals;
      exists k :: IsLatestOpen(t, bike, k)
        && t'.rows.Keys == t.rows.Keys
        && !IsOpenFor(t'.rows[k], bike)
        && t'.rows[k].actualReturnDate == Some(now)
        && t'.rows[k].state == Done
        && (forall j :: j in t.rows && j != k ==> t'.rows[j] == t.rows[j])
  {
  }

  /** The rental a checkout creates is open for its bike, so a later return of
      that bike closes an open rental (that one, or one that started later). */
  lemma CheckoutOpensRental(st: State, req: Request, parse: string -> Option<int>)
    requires Views.Checkout(st, req, parse).response == Confirmed
    ensures var db' := Views.Checkout(st, req, parse).state.db;
      var id := st.db.rentals.next;
      && id in db'.rentals.rows
      && !NoneOpen(db'.rentals, db'.rentals.rows[id].bike)
  {
    var db' := Views.Checkout(st, req, parse).state.db;
    var id := st.db.rentals.next;
    assert Views.BookedFromSession(st, db', parse);
    assert IsOpenFor(db'.rentals.rows[id], db'.rentals.rows[id].bike);
  }

  /** Deleting a bike leaves no rental of it and no dangling reference. */
  lemma DeleteVehicleNoDangling(st: State, req: Request, id: nat)
    requires Valid(st.db)
    ensures var db' := DeleteVehicle(st, req, id).state.db;
      && Valid(db')
      && (req.verb == Post ==> forall r :: r in db'.rentals.rows ==> db'.rentals.rows[r].bike != id)
  {
  }

  /** Deleting a category leaves no bike of it, no rental of such a bike, and
      no dangling reference. */
  lemma DeleteCategoryNoDangling(db: Db, id: nat)
    requires Valid(db)
    ensures var db' := DeleteCategory(db, id);
      && Valid(db')
      && (forall b :: b in db'.bikes.rows ==> db'.bikes.rows[b].category != id)
      && (forall r :: r in db'.rentals.rows ==> db.bikes.rows[db'.rentals.rows[r].bike].category != id)
  {
  }

  /** Deleting the bike just added from inventory restores the bike and rental
      rows: the added bike had no rentals, so the cascade removes nothing else. */
  lemma AddThenDeleteRestores(st: State, req: Request, del: Request)
    requires Valid(st.db)
    requires AddInventory(st, req).response == Redirect(ADMIN_VEHICLES)
    requires del.verb == Post
    ensures var st1 := AddInventory(st, req).state;
      var st2 := DeleteVehicle(st1, del, st.db.bikes.next).state;
      && st2.db.bikes.rows == st.db.bikes.rows
      && st2.db.rentals.rows == st.db.rentals.rows
      && st2.session == st.session
  {
    var id := st.db.bikes.next;
    var st1 := AddInventory(st, req).state;
    assert st1.db.rentals == st.db.rentals;
    assert st1.db.bikes.rows == st.db.bikes.rows[id := st1.db.bikes.rows[id]];
    var db2 := DeleteBike(st1.db, id);
    assert DeleteVehicle(st1, del, id).state.db == db2;
    assert id !in st.db.bikes.rows;
    assert forall r :: r in st.db.rentals.rows ==> st.db.rentals.rows[r].bike != id;
    assert db2.rentals.rows.Keys == st.db.rentals.rows.Keys;
    assert db2.bikes.rows == st.db.bikes.rows;
  }
}
