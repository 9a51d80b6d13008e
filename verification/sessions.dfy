/** The per-visitor session, and the state every handler reads and writes. */
module Sessions {
  import opened Wrappers
  import opened Models
  import opened Http

  const RENTAL_DATA: string := "rental_data"
  const SELECTED_BIKE_ID: string := "selected_bike_id"
  const CUSTOMER_DATA: string := "customer_data"
  const ADMIN_ID: string := "admin_id"
  const ADMIN_ROLE: string := "admin_role"
  const ADMIN_USERNAME: string := "admin_username"

  /** The values the handlers store in the session: the dates form (five
      fields), the chosen bike's key as posted, the customer form (five
      fields), and the three admin entries. */
  datatype Value =
    | RentalForm(
        email: Option<string>,
        pickupDate: Option<string>,
        pickupTime: Option<string>,
        returnDate: Option<string>,
        returnTime: Option<string>)
    | BikeChoice(bikeId: string)
    | CustomerForm(
        firstName: Option<string>,
        lastName: Option<string>,
        phone: Option<string>,
        passportId: Option<string>,
        lineId: Option<string>)
    | AdminIdValue(adminId: nat)
    | RoleValue(role: Role)
    | UsernameValue(username: string)

  type Session = map<string, Value>

  /** Every known key holds the kind of value its handler stores there. */
  predicate WellTyped(s: Session) {
    && (RENTAL_DATA in s ==> s[RENTAL_DATA].RentalForm?)
    && (SELECTED_BIKE_ID in s ==> s[SELECTED_BIKE_ID].BikeChoice?)
    && (CUSTOMER_DATA in s ==> s[CUSTOMER_DATA].CustomerForm?)
    && (ADMIN_ID in s ==> s[ADMIN_ID].AdminIdValue?)
    && (ADMIN_ROLE in s ==> s[ADMIN_ROLE].RoleValue?)
    && (ADMIN_USERNAME in s ==> s[ADMIN_USERNAME].UsernameValue?)
  }

  /** `s'` is `s` with the keys in `ks` possibly written and every other key,
      present or absent, exactly as it was. */
  predicate OnlyTouches(s: Session, s': Session, ks: set<string>) {
    && s'.Keys - ks == s.Keys - ks
    && forall k :: k in s && k !in ks ==> k in s' && s'[k] == s[k]
  }

  datatype State = State(session: Session, db: Db)

  datatype Outcome = Outcome(response: Response, state: State)
}
