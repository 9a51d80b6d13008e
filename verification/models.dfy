/** Entities of the shop: the Admin, BikeCategory, Bike, Customer and Rental
    tables, their enumerations, and the ON DELETE CASCADE rules between them. */
module Models {
  import opened Wrappers

  /** The two admin roles. */
  datatype Role = Owner | Staff

  /** A bike's status column. The column is a character field whose three
      choices are Available, Rented and Fix; saving a bike does not enforce the
      choices, so any other label can be stored too (`Unlisted`). */
  datatype BikeStatus = Available | Rented | Fix | Unlisted(text: string)

  const CHOICE_LABELS: set<string> := {"Available", "Rented", "Fix"}

  /** Each stored label has exactly one representation: a label that names a
      choice is that choice, never `Unlisted`. */
  predicate Canonical(s: BikeStatus) {
    s.Unlisted? ==> s.text !in CHOICE_LABELS
  }

  type Status = s: BikeStatus | Canonical(s) witness Available

  function Label(s: BikeStatus): string {
    match s
    case Available => "Available"
    case Rented => "Rented"
    case Fix => "Fix"
    case Unlisted(l) => l
  }

  /** The status a posted label denotes once stored. */
  function FromLabel(l: string): (s: Status)
    ensures Label(s) == l
    ensures l in CHOICE_LABELS <==> !s.Unlisted?
  {
    if l == "Available" then Available
    else if l == "Rented" then Rented
    else if l == "Fix" then Fix
    else Unlisted(l)
  }

  /** Storing a status as its label and reading it back gives the same status. */
  lemma LabelRoundTrip(s: Status)
    ensures FromLabel(Label(s)) == s
  {
  }

  /** Labels and statuses are in one-to-one correspondence. */
  lemma LabelInjective(a: Status, b: Status)
    ensures Label(a) == Label(b) <==> a == b
  {
    LabelRoundTrip(a);
    LabelRoundTrip(b);
  }

  /** The rental's state column. */
  datatype RentalState = Active | Done

  datatype Admin = Admin(username: string, passwordHash: string, role: Role)

  /** Prices are in minor currency units. */
  datatype Category = Category(
    name: string,
    priceDaily: int,
    priceWeekly: int,
    priceMonthly: int,
    depositAmount: int)

  /** `category` is the primary key of the bike's BikeCategory row. */
  datatype Bike = Bike(
    licensePlate: string,
    modelName: string,
    color: string,
    imageUrl: Option<string>,
    status: Status,
    category: nat)

  datatype Customer = Customer(
    passportId: Option<string>,
    firstName: string,
    lastName: string,
    phone: string,
    email: string,
    lineId: Option<string>)

  /** Instants are opaque ordered values; `customer` and `bike` are primary keys. */
  datatype Rental = Rental(
    startDate: int,
    endDate: int,
    actualReturnDate: Option<int>,
    totalPrice: int,
    isDelivery: bool,
    deliveryAddress: Option<string>,
    state: RentalState,
    customer: nat,
    bike: nat)

  /** A table: rows keyed by primary key, and the auto-increment counter that
      hands out the next key. Keys are never reused, so every key is below it. */
  datatype RawTable<T> = Table(rows: map<nat, T>, next: nat)

  type Table<T> = t: RawTable<T> | forall id :: id in t.rows ==> id < t.next
    witness Table(map[], 0)

  /** Adds a row under a fresh key. */
  function Insert<T>(t: Table<T>, row: T): (r: (nat, Table<T>))
    ensures r.0 !in t.rows
    ensures r.1.rows == t.rows[r.0 := row]
  {
    (t.next, Table(t.rows[t.next := row], t.next + 1))
  }

  /** Overwrites an existing row. */
  function Put<T>(t: Table<T>, id: nat, row: T): (r: Table<T>)
    requires id in t.rows
    ensures r.rows.Keys == t.rows.Keys
    ensures r.rows[id] == row
    ensures forall k :: k in t.rows && k != id ==> r.rows[k] == t.rows[k]
  {
    Table(t.rows[id := row], t.next)
  }

  /** Keeps the rows that satisfy `keep`. */
  function Where<T>(t: Table<T>, keep: T -> bool): (r: Table<T>)
    ensures forall k :: k in r.rows <==> k in t.rows && keep(t.rows[k])
    ensures forall k :: k in r.rows ==> r.rows[k] == t.rows[k]
  {
    Table(map k | k in t.rows && keep(t.rows[k]) :: t.rows[k], t.next)
  }

  predicate Increasing(ids: seq<nat>) {
    forall a, b :: 0 <= a < b < |ids| ==> ids[a] < ids[b]
  }

  /** The keys below `n` whose rows satisfy `p`, in ascending order. */
  function SelectBelow<T>(rows: map<nat, T>, p: T -> bool, n: nat): (ids: seq<nat>)
    ensures forall k :: k in ids <==> k < n && k in rows && p(rows[k])
    ensures Increasing(ids)
    decreases n
  {
    if n == 0 then []
    else
      var below := SelectBelow(rows, p, n - 1);
      if n - 1 in rows && p(rows[n - 1]) then
        assert forall a :: 0 <= a < |below| ==> below[a] in below;
        below + [n - 1]
      else below
  }

  /** The keys of the rows that satisfy `p`, in ascending key order: what a
      filtered query returns before any ordering is applied. */
  function Select<T>(t: Table<T>, p: T -> bool): (ids: seq<nat>)
    ensures forall k :: k in ids <==> k in t.rows && p(t.rows[k])
    ensures Increasing(ids)
  {
    SelectBelow(t.rows, p, t.next)
  }

  datatype Db = Db(
    categories: Table<Category>,
    bikes: Table<Bike>,
    customers: Table<Customer>,
    rentals: Table<Rental>)

  /** Referential integrity: every Bike names an existing BikeCategory and
      every Rental an existing Customer and Bike. */
  predicate Valid(db: Db) {
    && (forall b :: b in db.bikes.rows ==> db.bikes.rows[b].category in db.categories.rows)
    && (forall r :: r in db.rentals.rows ==>
          db.rentals.rows[r].customer in db.customers.rows && db.rentals.rows[r].bike in db.bikes.rows)
  }

  /** Deleting a bike; its rentals go with it (CASCADE). */
  function DeleteBike(db: Db, id: nat): (db': Db)
    ensures db'.bikes.rows == db.bikes.rows - {id}
    ensures forall r :: r in db'.rentals.rows <==> r in db.rentals.rows && db.rentals.rows[r].bike != id
    ensures forall r :: r in db'.rentals.rows ==> db'.rentals.rows[r] == db.rentals.rows[r]
    ensures db'.categories == db.categories && db'.customers == db.customers
    ensures Valid(db) ==> Valid(db')
  {
    Db(db.categories,
       Table(db.bikes.rows - {id}, db.bikes.next),
       db.customers,
       Where(db.rentals, (r: Rental) => r.bike != id))
  }

  /** Deleting a customer; their rentals go with them (CASCADE). */
  function DeleteCustomer(db: Db, id: nat): (db': Db)
    ensures db'.customers.rows == db.customers.rows - {id}
    ensures forall r :: r in db'.rentals.rows <==> r in db.rentals.rows && db.rentals.rows[r].customer != id
    ensures forall r :: r in db'.rentals.rows ==> db'.rentals.rows[r] == db.rentals.rows[r]
    ensures db'.categories == db.categories && db'.bikes == db.bikes
    ensures Valid(db) ==> Valid(db')
  {
    Db(db.categories,
       db.bikes,
       Table(db.customers.rows - {id}, db.customers.next),
       Where(db.rentals, (r: Rental) => r.customer != id))
  }

  /** Deleting a category; its bikes go with it, and their rentals with them
      (CASCADE twice). */
  function DeleteCategory(db: Db, id: nat): (db': Db)
    ensures db'.categories.rows == db.categories.rows - {id}
    ensures forall b :: b in db'.bikes.rows <==> b in db.bikes.rows && db.bikes.rows[b].category != id
    ensures forall b :: b in db'.bikes.rows ==> db'.bikes.rows[b] == db.bikes.rows[b]
    ensures forall r :: r in db'.rentals.rows <==>
      r in db.rentals.rows &&
      !(db.rentals.rows[r].bike in db.bikes.rows && db.bikes.rows[db.rentals.rows[r].bike].category == id)
    ensures forall r :: r in db'.rentals.rows ==> db'.rentals.rows[r] == db.rentals.rows[r]
    ensures db'.customers == db.customers
    ensures Valid(db) ==> Valid(db')
  {
    Db(Table(db.categories.rows - {id}, db.categories.next),
       Where(db.bikes, (b: Bike) => b.category != id),
       db.customers,
       Where(db.rentals, (r: Rental) => !(r.bike in db.bikes.rows && db.bikes.rows[r.bike].category == id)))
  }
}
