/** Properties of the booking wizard that relate several requests. */
module WizardProperties {
  import opened Wrappers
  import opened Models
  import opened Http
  import opened Sessions
  import opened Views

  /** Everything a confirmed checkout needs: complete entries, a chosen bike
      that exists and whose category exists, an entered email that at most one
      customer has (and a complete customer entry when none has it), and dates
      that parse. */
  predicate CanBook(st: State, parse: string -> Option<int>) {
    var s := st.session;
    && Complete(s)
    && FindBike(st.db, s[SELECTED_BIKE_ID].bikeId).Some?
    && st.db.bikes.rows[FindBike(st.db, s[SELECTED_BIKE_ID].bikeId).value].category in st.db.categories.rows
    && var rd := s[RENTAL_DATA];
       && rd.email.Some?
       && !Ambiguous(st.db.customers, rd.email.value)
       && (Unknown(st.db.customers, rd.email.value) ==> NewCustomer(rd.email.value, s[CUSTOMER_DATA]).Some?)
       && parse(Stamp(rd.pickupDate, rd.pickupTime)).Some?
       && parse(Stamp(rd.returnDate, rd.returnTime)).Some?
  }

  /** Some customer has email `e` and no other does. */
  lemma KnownUnambiguous(t: Table<Customer>, e: string) returns (k: nat)
    requires !Unknown(t, e) && !Ambiguous(t, e)
    ensures OnlyMatch(t, e, k)
  {
    k :| k in t.rows && t.rows[k].email == e;
  }

  /** A checkout is confirmed exactly when it is a POST and the booking can be made. */
  lemma CheckoutConfirmsIff(st: State, req: Request, parse: string -> Option<int>)
    ensures Checkout(st, req, parse).response == Confirmed <==> req.verb == Post && CanBook(st, parse)
  {
    var s := st.session;
    if req.verb == Post && CanBook(st, parse) {
      var rd := s[RENTAL_DATA];
      var e := rd.email.value;
      if !Unknown(st.db.customers, e) {
        var k := KnownUnambiguous(st.db.customers, e);
      }
    }
  }

  /** After a confirmed checkout the session is empty: each later wizard step
      sends the visitor back to the dates step and changes nothing. */
  lemma GatesClosedAfterCheckout(st: State, req: Request, parse: string -> Option<int>, later: Request)
    requires Checkout(st, req, parse).response == Confirmed
    ensures var st' := Checkout(st, req, parse).state;
      && Bikes(st', later) == Outcome(Redirect(DATES), st')
      && CustomerView(st', later) == Outcome(Redirect(DATES), st')
      && Checkout(st', later, parse) == Outcome(Redirect(DATES), st')
  {
  }

  /** Posting the three forms in order opens the checkout gate, whatever the
      session held before, and the entries are the posted ones. */
  lemma FormsOpenCheckout(st: State, dates: Request, pick: Request, details: Request)
    requires dates.verb == Post && pick.verb == Post && details.verb == Post
    requires Truthy(Field(pick, "bike_id"))
    ensures var s3 := CustomerView(Bikes(Dates(st, dates).state, pick).state, details).state.session;
      && Complete(s3)
      && s3[RENTAL_DATA] == DatesForm(dates)
      && s3[SELECTED_BIKE_ID] == BikeChoice(Field(pick, "bike_id").value)
      && s3[CUSTOMER_DATA] == CustomerDetails(details)
  {
  }

  /** The whole wizard, from any session: posting the dates with email `e`,
      the key of an existing bike as the bike page renders it, the customer
      details and the confirmation books exactly that bike, at its category's
      daily price, for the customer with email `e`, and empties the session. */
  lemma WizardBooksChosenBike(
    st: State, dates: Request, pick: Request, details: Request, confirm: Request,
    parse: string -> Option<int>, bike: nat, e: string)
    requires dates.verb == Post && pick.verb == Post && details.verb == Post && confirm.verb == Post
    requires Field(dates, "email") == Some(e)
    requires Field(pick, "bike_id") == Some(ShowNat(bike))
    requires bike in st.db.bikes.rows && st.db.bikes.rows[bike].category in st.db.categories.rows
    requires !Ambiguous(st.db.customers, e)
    requires Unknown(st.db.customers, e) ==> NewCustomer(e, CustomerDetails(details)).Some?
    requires parse(Stamp(Field(dates, "pickup_date"), Field(dates, "pickup_time"))).Some?
    requires parse(Stamp(Field(dates, "return_date"), Field(dates, "return_time"))).Some?
    ensures
      var s3 := CustomerView(Bikes(Dates(st, dates).state, pick).state, details).state;
      var o := Checkout(s3, confirm, parse);
      var id := st.db.rentals.next;
      && o.response == Confirmed
      && o.state.session == map[]
      && id in o.state.db.rentals.rows
      && o.state.db.rentals.rows.Keys == st.db.rentals.rows.Keys + {id}
      && o.state.db.rentals.rows[id].bike == bike
      && o.state.db.rentals.rows[id].state == Active
      && o.state.db.rentals.rows[id].totalPrice == st.db.categories.rows[st.db.bikes.rows[bike].category].priceDaily
      && o.state.db.customers.rows[o.state.db.rentals.rows[id].customer].email == e
  {
    var s3 := CustomerView(Bikes(Dates(st, dates).state, pick).state, details).state;
    FormsOpenCheckout(st, dates, pick, details);
    ParseShow(bike);
    assert s3.db == st.db;
    assert FindBike(s3.db, s3.session[SELECTED_BIKE_ID].bikeId) == Some(bike);
    assert CanBook(s3, parse);
    CheckoutConfirmsIff(s3, confirm, parse);
  }

  /** At most one customer has email `e`. */
  predicate AtMostOne(t: Table<Customer>, e: string) {
    forall a, b :: a in t.rows && b in t.rows && t.rows[a].email == e && t.rows[b].email == e ==> a == b
  }

  /** A table that keeps every row and adds at most one, under the next key
      and only with an email no row had, keeps each email unambiguous. */
  lemma AddingUnknownKeepsUnique(t: Table<Customer>, t': Table<Customer>, e: string)
    requires AtMostOne(t, e)
    requires forall k :: k in t.rows ==> k in t'.rows && t'.rows[k] == t.rows[k]
    requires t'.rows.Keys <= t.rows.Keys + {t.next}
    requires t.next in t'.rows ==> Unknown(t, t'.rows[t.next].email)
    ensures AtMostOne(t', e)
  {
    if t.next in t'.rows && t'.rows[t.next].email == e {
      forall a | a in t'.rows && t'.rows[a].email == e
        ensures a == t.next
      {
      }
    } else {
      forall a | a in t'.rows && t'.rows[a].email == e
        ensures a in t.rows && t.rows[a].email == e
      {
      }
    }
  }

  /** Checkout never makes an email ambiguous: it creates a customer only for
      an email no customer has. */
  lemma CheckoutKeepsEmailsUnique(st: State, req: Request, parse: string -> Option<int>, e: string)
    requires AtMostOne(st.db.customers, e)
    ensures AtMostOne(Checkout(st, req, parse).state.db.customers, e)
  {
    var t := st.db.customers;
    var t' := Checkout(st, req, parse).state.db.customers;
    if t.next in t'.rows {
      var rd := st.session[RENTAL_DATA];
      assert CreatedFor(t, rd, st.session[CUSTOMER_DATA], t'.rows[t.next]);
      assert t'.rows[t.next].email == rd.email.value;
    }
    AddingUnknownKeepsUnique(t, t', e);
  }

  /** The customer a confirmed checkout books for has the entered email, and
      is either an existing customer or new because no customer had it. */
  lemma ConfirmedCustomer(st: State, req: Request, parse: string -> Option<int>) returns (c: nat)
    requires Checkout(st, req, parse).response == Confirmed
    ensures Complete(st.session) && st.session[RENTAL_DATA].email.Some?
    ensures var db' := Checkout(st, req, parse).state.db;
      && st.db.rentals.next in db'.rentals.rows
      && c == db'.rentals.rows[st.db.rentals.next].customer
      && c in db'.customers.rows
      && db'.customers.rows[c].email == st.session[RENTAL_DATA].email.value
      && (c !in st.db.customers.rows ==> Unknown(st.db.customers, st.session[RENTAL_DATA].email.value))
      && !Ambiguous(st.db.customers, st.session[RENTAL_DATA].email.value)
  {
    var db' := Checkout(st, req, parse).state.db;
    assert BookedFromSession(st, db', parse);
    c := db'.rentals.rows[st.db.rentals.next].customer;
    CheckoutConfirmsIff(st, req, parse);
  }

  /** A confirmed checkout for an email customer `k` already has books for
      `k` and leaves the customers unchanged. */
  lemma ConfirmedKnownCustomer(st: State, req: Request, parse: string -> Option<int>, k: nat)
    requires Checkout(st, req, parse).response == Confirmed
    requires RENTAL_DATA in st.session && st.session[RENTAL_DATA].RentalForm?
    requires k in st.db.customers.rows && Some(st.db.customers.rows[k].email) == st.session[RENTAL_DATA].email
    ensures var db' := Checkout(st, req, parse).state.db;
      && st.db.rentals.next in db'.rentals.rows
      && db'.rentals.rows[st.db.rentals.next].customer == k
      && db'.customers.rows == st.db.customers.rows
  {
    var db' := Checkout(st, req, parse).state.db;
    var e := st.session[RENTAL_DATA].email.value;
    var c := ConfirmedCustomer(st, req, parse);
    assert !Unknown(st.db.customers, e);
    assert c in st.db.customers.rows;
    assert c == k;
    assert st.db.customers.next !in db'.customers.rows;
    assert db'.customers.rows.Keys == st.db.customers.rows.Keys;
  }

  /** Checking out again with the same email books for the same customer and
      leaves the customers as they were: no duplicate, no update. */
  lemma RepeatCheckoutSameCustomer(
    st: State, req: Request, st2: State, req2: Request, parse: string -> Option<int>)
    requires Checkout(st, req, parse).response == Confirmed
    requires st2.db == Checkout(st, req, parse).state.db
    requires Checkout(st2, req2, parse).response == Confirmed
    requires RENTAL_DATA in st.session && RENTAL_DATA in st2.session
    requires st2.session[RENTAL_DATA].email == st.session[RENTAL_DATA].email
    ensures var db1 := Checkout(st, req, parse).state.db;
      var db2 := Checkout(st2, req2, parse).state.db;
      && db2.customers.rows == db1.customers.rows
      && db2.rentals.rows[db1.rentals.next].customer == db1.rentals.rows[st.db.rentals.next].customer
  {
    var c1 := ConfirmedCustomer(st, req, parse);
    ConfirmedKnownCustomer(st2, req2, parse, c1);
  }

  /** Posting the same dates again changes nothing more. */
  lemma DatesIdempotent(st: State, req: Request)
    ensures Dates(Dates(st, req).state, req) == Dates(st, req)
  {
  }

  /** Posting the same customer details again changes nothing more. */
  lemma CustomerViewIdempotent(st: State, req: Request)
    ensures CustomerView(CustomerView(st, req).state, req) == CustomerView(st, req)
  {
  }

  /** Going back to the dates step keeps the bike and customer entries, so
      checkout stays reachable. */
  lemma ReenteringDatesKeepsProgress(st: State, req: Request)
    requires HasAll(st.session) && req.verb == Post
    ensures HasAll(Dates(st, req).state.session)
    ensures Dates(st, req).state.session[SELECTED_BIKE_ID] == st.session[SELECTED_BIKE_ID]
    ensures Dates(st, req).state.session[CUSTOMER_DATA] == st.session[CUSTOMER_DATA]
  {
  }

  /** Posting the bike page with no bike key still redirects to the customer
      step; with no bike chosen earlier, that step sends the visitor back to
      the dates step. */
  lemma EmptyBikeChoiceBouncesBack(st: State, pick: Request, details: Request)
    requires HasDates(st.session) && SELECTED_BIKE_ID !in st.session
    requires pick.verb == Post && !Truthy(Field(pick, "bike_id"))
    ensures Bikes(st, pick).response == Redirect(CUSTOMER)
    ensures CustomerView(Bikes(st, pick).state, details).response == Redirect(DATES)
  {
  }

  /** Posting the same bike again changes nothing more. */
  lemma BikesIdempotent(st: State, req: Request)
    ensures Bikes(Bikes(st, req).state, req) == Bikes(st, req)
  {
  }
}
