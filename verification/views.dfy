/** The public booking wizard: Dates, then Bikes, then CustomerView, then
    Checkout. Each step keeps what the visitor entered in the session; each
    later step sends the visitor back to the dates step when an earlier step's
    entry is missing. */
module Views {
  import opened Wrappers
  import opened Models
  import opened Http
  import opened Sessions

  // Route names the handlers redirect to.
  const DATES: string := "dates"
  const BIKES: string := "bikes"
  const CUSTOMER: string := "customer"
  const CHECKOUT: string := "checkout"

  const DATES_PAGE: string := "myshop_template/1-dates.html"
  const BIKES_PAGE: string := "myshop_template/2-bikes.html"
  const CUSTOMER_PAGE: string := "myshop_template/3-customer.html"
  const CHECKOUT_PAGE: string := "myshop_template/4-checkout.html"

  /** The gate of the bike step. */
  predicate HasDates(s: Session) {
    RENTAL_DATA in s
  }

  /** The gate of the customer step. */
  predicate HasBike(s: Session) {
    RENTAL_DATA in s && SELECTED_BIKE_ID in s
  }

  /** The gate of the checkout step. */
  predicate HasAll(s: Session) {
    RENTAL_DATA in s && SELECTED_BIKE_ID in s && CUSTOMER_DATA in s
  }

  /** The five fields of the dates form, as posted. */
  function DatesForm(req: Request): Value {
    RentalForm(
      Field(req, "email"),
      Field(req, "pickup_date"),
      Field(req, "pickup_time"),
      Field(req, "return_date"),
      Field(req, "return_time"))
  }

  /** The five fields of the customer form, as posted. */
  function CustomerDetails(req: Request): Value {
    CustomerForm(
      Field(req, "first_name"),
      Field(req, "last_name"),
      Field(req, "phone"),
      Field(req, "passport_id"),
      Field(req, "line_id"))
  }

  /** Step 1. A POST replaces the dates entry with the five posted fields and
      moves on to the bike step; anything else shows the dates page. */
  function Dates(st: State, req: Request): (o: Outcome)
    ensures o.state.db == st.db
    ensures req.verb != Post ==> o == Outcome(Render(DATES_PAGE), st)
    ensures req.verb == Post ==>
      && o.response == Redirect(BIKES)
      && OnlyTouches(st.session, o.state.session, {RENTAL_DATA})
      && RENTAL_DATA in o.state.session
      && o.state.session[RENTAL_DATA].RentalForm?
      && o.state.session[RENTAL_DATA].email == Field(req, "email")
      && o.state.session[RENTAL_DATA].pickupDate == Field(req, "pickup_date")
      && o.state.session[RENTAL_DATA].pickupTime == Field(req, "pickup_time")
      && o.state.session[RENTAL_DATA].returnDate == Field(req, "return_date")
      && o.state.session[RENTAL_DATA].returnTime == Field(req, "return_time")
    ensures WellTyped(st.session) ==> WellTyped(o.state.session)
  {
    if req.verb == Post then
      Outcome(Redirect(BIKES), st.(session := st.session[RENTAL_DATA := DatesForm(req)]))
    else
      Outcome(Render(DATES_PAGE), st)
  }

  /** The bikes the bike page lists: those whose status is Available. */
  function AvailableBikes(db: Db): (ids: set<nat>)
    ensures forall b :: b in ids <==> b in db.bikes.rows && db.bikes.rows[b].status == Available
  {
    set b | b in db.bikes.rows && db.bikes.rows[b].status == Available
  }

  /** Step 2. Without a dates entry, back to the dates step. A POST records a
      non-empty posted bike key and, whatever was posted, moves on to the
      customer step; anything else lists the available bikes. */
  function Bikes(st: State, req: Request): (o: Outcome)
    ensures o.state.db == st.db
    ensures !HasDates(st.session) ==> o == Outcome(Redirect(DATES), st)
    ensures o.response == Redirect(DATES) <==> !HasDates(st.session)
    ensures HasDates(st.session) && req.verb == Post ==>
      && o.response == Redirect(CUSTOMER)
      && OnlyTouches(st.session, o.state.session, {SELECTED_BIKE_ID})
      && (Truthy(Field(req, "bike_id")) ==>
            SELECTED_BIKE_ID in o.state.session
            && o.state.session[SELECTED_BIKE_ID] == BikeChoice(Field(req, "bike_id").value))
      && (!Truthy(Field(req, "bike_id")) ==> o.state.session == st.session)
    ensures HasDates(st.session) && req.verb != Post ==>
      o == Outcome(BikeListing(BIKES_PAGE, AvailableBikes(st.db)), st)
    ensures WellTyped(st.session) ==> WellTyped(o.state.session)
  {
    if !HasDates(st.session) then
      Outcome(Redirect(DATES), st)
    else if req.verb == Post then
      var bikeId := Field(req, "bike_id");
      if Truthy(bikeId) then
        Outcome(Redirect(CUSTOMER), st.(session := st.session[SELECTED_BIKE_ID := BikeChoice(bikeId.value)]))
      else
        Outcome(Redirect(CUSTOMER), st)
    else
      Outcome(BikeListing(BIKES_PAGE, AvailableBikes(st.db)), st)
  }

  /** Step 3. Without a dates entry and a chosen bike, back to the dates step.
      A POST replaces the customer entry with the five posted fields and moves
      on to checkout; anything else shows the customer page. */
  function CustomerView(st: State, req: Request): (o: Outcome)
    ensures o.state.db == st.db
    ensures !HasBike(st.session) ==> o == Outcome(Redirect(DATES), st)
    ensures o.response == Redirect(DATES) <==> !HasBike(st.session)
    ensures HasBike(st.session) && req.verb == Post ==>
      && o.response == Redirect(CHECKOUT)
      && OnlyTouches(st.session, o.state.session, {CUSTOMER_DATA})
      && CUSTOMER_DATA in o.state.session
      && o.state.session[CUSTOMER_DATA].CustomerForm?
      && o.state.session[CUSTOMER_DATA].firstName == Field(req, "first_name")
      && o.state.session[CUSTOMER_DATA].lastName == Field(req, "last_name")
      && o.state.session[CUSTOMER_DATA].phone == Field(req, "phone")
      && o.state.session[CUSTOMER_DATA].passportId == Field(req, "passport_id")
      && o.state.session[CUSTOMER_DATA].lineId == Field(req, "line_id")
    ensures HasBike(st.session) && req.verb != Post ==> o == Outcome(Render(CUSTOMER_PAGE), st)
    ensures WellTyped(st.session) ==> WellTyped(o.state.session)
  {
    if !HasBike(st.session) then
      Outcome(Redirect(DATES), st)
    else if req.verb == Post then
      Outcome(Redirect(CHECKOUT), st.(session := st.session[CUSTOMER_DATA := CustomerDetails(req)]))
    else
      Outcome(Render(CUSTOMER_PAGE), st)
  }

  /** No customer has email `e`. */
  predicate Unknown(t: Table<Customer>, e: string) {
    forall k :: k in t.rows ==> t.rows[k].email != e
  }

  /** `k` is the one customer with email `e`. */
  predicate OnlyMatch(t: Table<Customer>, e: string, k: nat) {
    && k in t.rows
    && t.rows[k].email == e
    && forall j :: j in t.rows && t.rows[j].email == e ==> j == k
  }

  /** Two different customers have email `e`. */
  predicate Ambiguous(t: Table<Customer>, e: string) {
    exists a, b :: a in t.rows && b in t.rows && a != b && t.rows[a].email == e && t.rows[b].email == e
  }

  /** The customer created from the customer form, or None when the form lacks
      a NOT NULL column (first name, last name, phone). */
  function NewCustomer(email: string, form: Value): (c: Option<Customer>)
    requires form.CustomerForm?
    ensures c.Some? <==> form.firstName.Some? && form.lastName.Some? && form.phone.Some?
    ensures c.Some? ==>
      && c.value.email == email
      && Some(c.value.firstName) == form.firstName
      && Some(c.value.lastName) == form.lastName
      && Some(c.value.phone) == form.phone
      && c.value.passportId == form.passportId
      && c.value.lineId == form.lineId
  {
    if form.firstName.Some? && form.lastName.Some? && form.phone.Some? then
      Some(Customer(form.passportId, form.firstName.value, form.lastName.value, form.phone.value, email, form.lineId))
    else
      None
  }

  /** Get-or-create of a customer keyed by email. The one existing customer
      with that email is returned unchanged; with none, one is created from the
      form; a missing email, several matches, or a form lacking a NOT NULL
      column is a database error (None). */
  function GetOrCreateCustomer(t: Table<Customer>, email: Option<string>, form: Value): (r: Option<(nat, Table<Customer>)>)
    requires form.CustomerForm?
    ensures email.None? ==> r.None?
    ensures email.Some? && Ambiguous(t, email.value) ==> r.None?
    ensures email.Some? ==> forall k: nat :: OnlyMatch(t, email.value, k) ==> r == Some((k, t))
    ensures email.Some? && Unknown(t, email.value) ==>
      && (r.Some? <==> NewCustomer(email.value, form).Some?)
      && (r.Some? ==>
            && r.value.0 !in t.rows
            && r.value.0 == t.next
            && r.value.1.rows == t.rows[r.value.0 := NewCustomer(email.value, form).value])
    // whichever way it went: the customer has the email, no row is changed,
    // and a new row is only ever the next key
    ensures r.Some? ==>
      && email.Some?
      && r.value.0 in r.value.1.rows
      && r.value.1.rows[r.value.0].email == email.value
      && (forall k :: k in t.rows ==> k in r.value.1.rows && r.value.1.rows[k] == t.rows[k])
      && r.value.1.rows.Keys <= t.rows.Keys + {t.next}
      && (r.value.0 in t.rows ==> r.value.1 == t)
      && (r.value.0 !in t.rows ==>
            && r.value.0 == t.next
            && Unknown(t, email.value)
            && NewCustomer(email.value, form) == Some(r.value.1.rows[r.value.0]))
  {
    match email
    case None => None
    case Some(e) =>
      var ms := Select(t, (c: Customer) => c.email == e);
      if |ms| == 0 then
        match NewCustomer(e, form)
        case None => None
        case Some(c) => Some(Insert(t, c))
      else if |ms| == 1 then
        assert ms[0] in ms;
        assert !Ambiguous(t, e);
        Some((ms[0], t))
      else
        assert ms[0] in ms && ms[1] in ms;
        assert !Unknown(t, e);
        assert forall k: nat :: !OnlyMatch(t, e, k);
        None
  }

  /** "<date> <time>", the text the booking hands to the datetime column. */
  function Stamp(date: Option<string>, time: Option<string>): string {
    Display(date) + " " + Display(time)
  }

  /** The bike a posted key names, when it parses and such a bike exists. */
  function FindBike(db: Db, text: string): (b: Option<nat>)
    ensures b.Some? <==> ParsePk(text).Some? && ParsePk(text).value in db.bikes.rows
    ensures b.Some? ==> b == ParsePk(text)
  {
    match ParsePk(text)
    case None => None
    case Some(id) => if id in db.bikes.rows then Some(id) else None
  }

  /** A customer made from the customer entry `cd` under the entered email,
      which no customer of `t` had. */
  predicate CreatedFor(t: Table<Customer>, rd: Value, cd: Value, c: Customer) {
    && rd.RentalForm? && cd.CustomerForm?
    && rd.email.Some?
    && Unknown(t, rd.email.value)
    && NewCustomer(rd.email.value, cd) == Some(c)
  }

  /** `db'` is `db` plus exactly one rental, under the next rental key, that
      books `bike` for `customer` from the entered dates at the flat daily
      price of the bike's category. */
  predicate RentalAdded(db: Db, db': Db, rd: Value, bike: nat, customer: nat, parse: string -> Option<int>) {
    var id := db.rentals.next;
    && rd.RentalForm?
    && id !in db.rentals.rows
    && id in db'.rentals.rows
    && db'.rentals.rows == db.rentals.rows[id := db'.rentals.rows[id]]
    && var r := db'.rentals.rows[id];
       && r.bike == bike
       && r.customer == customer
       && bike in db.bikes.rows
       // flat daily price of the bike's category, whatever the dates
       && db.bikes.rows[bike].category in db.categories.rows
       && r.totalPrice == db.categories.rows[db.bikes.rows[bike].category].priceDaily
       // the dates entered in the dates step
       && parse(Stamp(rd.pickupDate, rd.pickupTime)) == Some(r.startDate)
       && parse(Stamp(rd.returnDate, rd.returnTime)) == Some(r.endDate)
       && r.actualReturnDate.None?
       && r.state == Active
       && !r.isDelivery && r.deliveryAddress.None?
  }

  /** The rental step of a checkout, once `customers` holds the customer:
      a new Active rental at the daily price, or an error (an unknown category,
      or dates that do not parse) that adds no rental. */
  function Rent(db: Db, customers: Table<Customer>, customer: nat, rd: Value, bike: nat, parse: string -> Option<int>): (r: (Response, Db))
    requires rd.RentalForm? && bike in db.bikes.rows && customer in customers.rows
    ensures r.0 == Confirmed || r.0 == ServerError
    ensures r.1.categories == db.categories && r.1.bikes == db.bikes && r.1.customers == customers
    ensures r.0 != Confirmed ==> r.1.rentals == db.rentals
    ensures r.0 == Confirmed ==> RentalAdded(db, r.1, rd, bike, customer, parse)
    ensures Valid(db) && db.customers.rows.Keys <= customers.rows.Keys ==> Valid(r.1)
  {
    var db1 := db.(customers := customers);
    var category := db.bikes.rows[bike].category;
    if category !in db.categories.rows then
      (ServerError, db1)
    else
      match (parse(Stamp(rd.pickupDate, rd.pickupTime)), parse(Stamp(rd.returnDate, rd.returnTime)))
      case (Some(start), Some(end)) =>
        var price := db.categories.rows[category].priceDaily;
        var rental := Rental(start, end, None, price, false, None, Active, customer, bike);
        (Confirmed, db1.(rentals := Insert(db.rentals, rental).1))
      case _ =>
        (ServerError, db1)
  }

  /** A confirmed checkout's writes: one rental as in `RentalAdded`, booked for
      the customer with the entered email, who is either an existing customer
      or one created from the customer entry. */
  predicate Booked(db: Db, db': Db, rd: Value, cd: Value, bike: nat, parse: string -> Option<int>) {
    && rd.RentalForm?
    && db.rentals.next in db'.rentals.rows
    && var customer := db'.rentals.rows[db.rentals.next].customer;
       && RentalAdded(db, db', rd, bike, customer, parse)
       && customer in db'.customers.rows
       && rd.email == Some(db'.customers.rows[customer].email)
       && (customer !in db.customers.rows ==> CreatedFor(db.customers, rd, cd, db'.customers.rows[customer]))
  }

  /** The writes of a confirmed checkout: get-or-create the customer, then add
      the rental. Not atomic: a customer created before a later failure stays. */
  function Book(db: Db, rd: Value, cd: Value, bike: nat, parse: string -> Option<int>): (r: (Response, Db))
    requires rd.RentalForm? && cd.CustomerForm? && bike in db.bikes.rows
    ensures r.0 == Confirmed || r.0 == ServerError
    ensures r.1.categories == db.categories && r.1.bikes == db.bikes
    ensures forall k :: k in db.customers.rows ==>
      k in r.1.customers.rows && r.1.customers.rows[k] == db.customers.rows[k]
    ensures r.1.customers.rows.Keys <= db.customers.rows.Keys + {db.customers.next}
    ensures db.customers.next in r.1.customers.rows ==>
      CreatedFor(db.customers, rd, cd, r.1.customers.rows[db.customers.next])
    ensures r.0 != Confirmed ==> r.1.rentals == db.rentals
    ensures r.0 == Confirmed ==> Booked(db, r.1, rd, cd, bike, parse)
    ensures Valid(db) ==> Valid(r.1)
  {
    match GetOrCreateCustomer(db.customers, rd.email, cd)
    case None => (ServerError, db)
    case Some((customer, customers)) => Rent(db, customers, customer, rd, bike, parse)
  }

  /** The session holds all three entries, each of the kind its step stores. */
  predicate Complete(s: Session) {
    HasAll(s) && s[RENTAL_DATA].RentalForm? && s[SELECTED_BIKE_ID].BikeChoice? && s[CUSTOMER_DATA].CustomerForm?
  }

  /** A confirmed checkout's booking, in terms of the session's entries. */
  predicate BookedFromSession(st: State, db': Db, parse: string -> Option<int>) {
    var s := st.session;
    && Complete(s)
    && ParsePk(s[SELECTED_BIKE_ID].bikeId).Some?
    && Booked(st.db, db', s[RENTAL_DATA], s[CUSTOMER_DATA], ParsePk(s[SELECTED_BIKE_ID].bikeId).value, parse)
  }

  /** Step 4. Without all three entries, back to the dates step. The chosen bike
      must exist (otherwise an uncaught error). A POST books the bike for the
      customer with the entered email and flushes the session; anything else
      shows the summary page. */
  function Checkout(st: State, req: Request, parse: string -> Option<int>): (o: Outcome)
    ensures !HasAll(st.session) ==> o == Outcome(Redirect(DATES), st)
    ensures o.response == Redirect(DATES) <==> !HasAll(st.session)
    ensures req.verb != Post ==> o.state == st
    ensures o.state.db.categories == st.db.categories && o.state.db.bikes == st.db.bikes
    // the session is flushed exactly when the booking is confirmed
    ensures o.response == Confirmed ==> req.verb == Post && o.state.session == map[]
    ensures o.response != Confirmed ==> o.state.session == st.session
    // existing customers are never updated; at most one is added, and only
    // when no customer had the entered email
    ensures forall k :: k in st.db.customers.rows ==>
      k in o.state.db.customers.rows && o.state.db.customers.rows[k] == st.db.customers.rows[k]
    ensures o.state.db.customers.rows.Keys <= st.db.customers.rows.Keys + {st.db.customers.next}
    ensures st.db.customers.next in o.state.db.customers.rows ==>
      && Complete(st.session)
      && CreatedFor(st.db.customers, st.session[RENTAL_DATA], st.session[CUSTOMER_DATA],
                    o.state.db.customers.rows[st.db.customers.next])
    // rentals change only on a confirmed booking, which adds exactly one
    ensures o.response != Confirmed ==> o.state.db.rentals == st.db.rentals
    ensures o.response == Confirmed ==> BookedFromSession(st, o.state.db, parse)
    ensures Valid(st.db) ==> Valid(o.state.db)
    ensures WellTyped(st.session) ==> WellTyped(o.state.session)
  {
    var s := st.session;
    if !HasAll(s) then
      Outcome(Redirect(DATES), st)
    else if !Complete(s) then
      Outcome(ServerError, st)
    else
      match FindBike(st.db, s[SELECTED_BIKE_ID].bikeId)
      case None => Outcome(ServerError, st)
      case Some(bike) =>
        if req.verb != Post then
          Outcome(Render(CHECKOUT_PAGE), st)
        else
          var (response, db') := Book(st.db, s[RENTAL_DATA], s[CUSTOMER_DATA], bike, parse);
          if response == Confirmed then
            Outcome(Confirmed, State(map[], db'))
          else
            Outcome(response, st.(db := db'))
  }
}
