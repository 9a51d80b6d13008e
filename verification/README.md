# Bike-rental booking wizard and back-office status rules, in Dafny

This project models the core of a small Django bike-rental shop:

* the public **booking wizard** (`Dates` → `Bikes` → `CustomerView` → `Checkout`),
  which keeps the visitor's entries in the session under `rental_data`,
  `selected_bike_id` and `customer_data`, and finally writes a Customer and a
  Rental and flushes the session;
* the **back office**: the `admin_required` guard, sign-in and `AdminLogout`,
  `AddInventory` (a new bike copied from an existing one), `DeleteVehicle`, and
  `UpdateStatus`, whose Rented→Available transition closes the bike's latest
  open rental;
* the **entities** (Admin, BikeCategory, Bike, Customer, Rental), their
  enumerations, nullable columns, foreign keys and ON DELETE CASCADE rules.

Everything is functional. A request handler is a pure function from a
`State` (the session, a `map<string, Value>`, and the database `Db`) and a
`Request` (method and posted fields) to an `Outcome` (a `Response` and the new
`State`). A table is a map from primary key to row plus the auto-increment
counter; keys are always below the counter.

Files:

| file | module | contents |
|---|---|---|
| `wrappers.dfy` | `Wrappers` | `Option` |
| `models.dfy` | `Models` | enumerations, records, tables, `Valid` (referential integrity), cascading deletes |
| `http.dfy` | `Http` | requests, responses, posted-field access, primary keys as text |
| `sessions.dfy` | `Sessions` | session keys and values, `State`, `Outcome` |
| `views.dfy` | `Views` | the four wizard steps and the checkout writes |
| `admin_views.dfy` | `AdminViews` | guard, sign-in, logout, add inventory, delete, status change |
| `wizard_properties.dfy` | `WizardProperties` | lemmas across several wizard requests |
| `admin_properties.dfy` | `AdminProperties` | lemmas across several back-office requests |

Modelling choices worth noting:

* Checkout prices a rental at the category's `price_daily`, whatever the length
  of the rental. The category's deposit is not charged.
* The customer is looked up by email. An existing customer is never updated,
  because the form values are only defaults for a new row.
* A bike is deleted whatever its status or rental history, and its rentals go
  with it.
* A rental's state is one field with the values Active and Done. The status
  handler calls it `payment_status` and the model calls it `status`; both are
  modelled as `Rental.state`.
* A bike's status column stores whatever label is posted, because saving does
  not enforce the choices. `BikeStatus.Unlisted` holds labels other than
  Available, Rented and Fix.
* The admin's role column does not enforce its choices either. No handler
  modelled here writes it, so a stored role is assumed to be one of its two
  choices, Owner and Staff (`Role`).
* Checkout is not atomic. Django's default autocommit is assumed (the settings
  file is not part of this model). Under autocommit, a customer created by the
  get-or-create stays in the table when the later rental insert fails.
* Text columns are compared exactly, character by character. This covers the
  email lookup of the get-or-create and the `status="Available"` filter of the
  bike listing. In the database both comparisons follow the column's collation,
  and the settings file that would fix it is not part of this model. Under a
  collation that ignores case or trailing spaces, "A@x.com" would find an
  existing "a@x.com" customer where the model creates a second one. Emails that
  differ only in case would then also make the lookup fail with several matches.
* As written, `admin_views.py` cannot be imported. It imports `PriceLog` from
  `models.py`, which defines no such model. Every back-office member below
  models the evident intent of its handler, and the "Left out" lines for
  `AdminViews.SignIn`, `AdminViews.AddInventory` and `AdminViews.UpdateStatus`
  say what each handler would do as written.
* An uncaught exception is modelled as the response `ServerError`. The failing
  operations are: a lookup that finds nothing, a bike key that is not a decimal
  number (`int()` raises), a NOT NULL column given no value (the field was not
  posted), dates that do not parse, and a get-or-create that matches several
  customers. A posted empty string is a value and is stored.

## Model

| member | source | states |
|---|---|---|
| `Views.Dates` | myfirstweb/myshop/views.py:14-27 | A POST replaces `rental_data` with exactly the five posted fields. No other session key changes and the database is untouched. The response redirects to `bikes`. Any other method only renders the dates page. |
| `Views.AvailableBikes` | myfirstweb/myshop/views.py:42-46 | The bike page lists exactly the bikes whose status is Available. |
| `Views.Bikes` | myfirstweb/myshop/views.py:30-46 | The response redirects to `dates` exactly when `rental_data` is missing, and then nothing changes. A POST stores `selected_bike_id` only when a non-empty `bike_id` is posted, touches no other key, and always redirects to `customer`. |
| `Views.CustomerView` | myfirstweb/myshop/views.py:49-69 | The response redirects to `dates` exactly when `rental_data` or `selected_bike_id` is missing, and then nothing changes. A POST replaces `customer_data` with exactly the five posted fields and leaves every other key alone. The response redirects to `checkout`. |
| `Views.NewCustomer` | myfirstweb/myshop/views.py:92-98 | A customer is created from the form exactly when first name, last name and phone are present, because those columns are NOT NULL. The new row carries the entered email and the form's fields. |
| `Views.GetOrCreateCustomer` | myfirstweb/myshop/views.py:89-99 | The lookup is keyed by email. If exactly one customer has the email, that customer is returned and the table is unchanged. If none has it, one new customer is created under the next key. A missing email or an email shared by two customers is an error. No existing row is ever modified. |
| `Views.FindBike` | myfirstweb/myshop/views.py:84 | The stored bike key resolves exactly when it parses as a key and a bike with that key exists. |
| `Views.Rent` | myfirstweb/myshop/views.py:101-117 | A success adds exactly one rental under the next key. It is Active, has no return date, is for the given bike and customer, uses the parsed dates, and is priced at the category's daily price. A failure adds no rental. |
| `Views.Book` | myfirstweb/myshop/views.py:86-117 | The checkout writes are not atomic. Existing customers are preserved. At most one customer is added, and only for an email that no customer had. Rentals change only on success. Referential integrity is preserved. |
| `Views.Checkout` | myfirstweb/myshop/views.py:72-128 | The response redirects to `dates` exactly when one of the three keys is missing, and then nothing changes. Only a POST writes. The session is flushed exactly when the booking is confirmed. A confirmed booking adds exactly one rental that matches the session's entries. Categories and bikes never change. |
| `WizardProperties.CheckoutConfirmsIff` | myfirstweb/myshop/views.py:72-122 | A checkout is confirmed if and only if it is a POST and the booking can be made. The conditions are: complete entries, an existing bike and category, an email that at most one customer has, a complete customer form when no customer has the email, and dates that parse. |
| `WizardProperties.GatesClosedAfterCheckout` | myfirstweb/myshop/views.py:119-122 | After a confirmed checkout, `Bikes`, `CustomerView` and `Checkout` each redirect to `dates` and change nothing. |
| `WizardProperties.FormsOpenCheckout` | myfirstweb/myshop/views.py:16-67 | Posting the dates, a non-empty bike key and the customer form, in that order and from any session, fills all three entries with the posted values. |
| `WizardProperties.WizardBooksChosenBike` | myfirstweb/myshop/views.py:14-122 | A full run of the wizard books exactly the bike whose key was posted. The rental is Active and priced at the category's daily price, and is for the customer with the entered email. The session ends empty. |
| `WizardProperties.ConfirmedCustomer` | myfirstweb/myshop/views.py:89-99 | A confirmed booking's customer has the entered email. That email was not ambiguous. The customer is new only if no customer had the email. |
| `WizardProperties.ConfirmedKnownCustomer` | myfirstweb/myshop/views.py:89-99 | If a customer already has the entered email, a confirmed booking is for that customer and leaves the customer rows unchanged. |
| `WizardProperties.AddingUnknownKeepsUnique` | myfirstweb/myshop/views.py:89-99 | A customer table that keeps every row and adds at most one, under the next key and only for an email no row has, keeps every email held by at most one customer. |
| `WizardProperties.CheckoutKeepsEmailsUnique` | myfirstweb/myshop/views.py:89-99 | If at most one customer has an email before a checkout, at most one has it afterwards. |
| `WizardProperties.RepeatCheckoutSameCustomer` | myfirstweb/myshop/views.py:89-99 | A second confirmed checkout with the same email books for the same customer and creates or updates no customer. |
| `WizardProperties.EmptyBikeChoiceBouncesBack` | myfirstweb/myshop/views.py:36-54 | Posting the bike page without a bike key still redirects to `customer`. If no bike was chosen earlier, the customer step then sends the visitor back to `dates`. |
| `WizardProperties.BikesIdempotent` | myfirstweb/myshop/views.py:35-40 | Posting the same bike choice twice is the same as posting it once. |
| `WizardProperties.DatesIdempotent` | myfirstweb/myshop/views.py:16-26 | Posting the same dates twice is the same as posting them once. |
| `WizardProperties.CustomerViewIdempotent` | myfirstweb/myshop/views.py:58-67 | Posting the same customer details twice is the same as posting them once. |
| `WizardProperties.ReenteringDatesKeepsProgress` | myfirstweb/myshop/views.py:16-26 | Re-posting the dates keeps the bike and customer entries, so checkout stays reachable. |
| `Http.Field` | myfirstweb/myshop/views.py:19-23 | A posted field is None exactly when it was not posted. |
| `Http.ParsePk` | myfirstweb/myshop/views.py:84 | A key given as text resolves exactly when it is a non-empty string of decimal digits. |
| `Http.ParseShow` | myfirstweb/myshop/views.py:36-38 | A bike key rendered as decimal text and posted back parses to the same key. |
| `Http.ShowParse` | myfirstweb/myshop/views.py:36-38 | A digit string without a leading zero is the rendering of the key it parses to. |
| `Models.FromLabel` | myfirstweb/myshop/models.py:33-45 | A stored label reads back as the same label, and it is one of the three choices exactly when it is not `Unlisted`. |
| `Models.LabelInjective` | myfirstweb/myshop/models.py:33-45 | Two statuses are equal exactly when their labels are equal. |
| `Models.Insert` | myfirstweb/myshop/models.py:38 | A new row gets a key that no existing row has, and every other row is kept. |
| `Models.Select` | myfirstweb/myshop/admin_views.py:194-197 | A filter returns exactly the keys of the matching rows, in ascending order without repeats. |
| `Models.DeleteBike` | myfirstweb/myshop/models.py:79 | Deleting a bike removes exactly the rentals of that bike, keeps every other row, and preserves referential integrity. |
| `Models.DeleteCustomer` | myfirstweb/myshop/models.py:78 | Deleting a customer removes exactly that customer's rentals and preserves referential integrity. |
| `Models.DeleteCategory` | myfirstweb/myshop/models.py:46 | Deleting a category removes exactly its bikes and their rentals, and preserves referential integrity. |
| `AdminViews.AdminRequired` | myfirstweb/myshop/admin_views.py:9-15 | Without `admin_id` in the session, the wrapped page does not run: the response redirects to `admin_login` and nothing changes. With `admin_id`, the result is the page's own result. |
| `AdminViews.SignIn` | myfirstweb/myshop/admin_views.py:24-27 | A successful login adds exactly the three admin keys, with the admin's id, role and username. The response redirects to the dashboard. |
| `AdminViews.AdminLogout` | myfirstweb/myshop/admin_views.py:33-40 | Logout removes whichever of `admin_id`, `admin_role` and `admin_username` are present and keeps every other key. The response redirects to `admin_login`. |
| `AdminViews.AddInventory` | myfirstweb/myshop/admin_views.py:104-138 | A POST adds a bike exactly when the source key names an existing bike and a plate is posted. The new bike is the only change. It has the posted plate, the source's model name, category and image, an empty colour, and status Available. Otherwise nothing is written. |
| `AdminViews.DeleteVehicle` | myfirstweb/myshop/admin_views.py:170-176 | An unknown bike gives 404. A POST deletes the bike and, through the cascade, its rentals, with no check of status or history. Any other method only renders the confirmation page. |
| `AdminViews.Latest` | myfirstweb/myshop/admin_views.py:194-198 | The result is one of the candidates with the latest start date. It is None exactly when there are no candidates. |
| `AdminViews.CloseLatestOpen` | myfirstweb/myshop/admin_views.py:191-207 | With no open rental for the bike, nothing changes. Otherwise one open rental with the latest start date gets the return time and state Done, and every other rental is unchanged. |
| `AdminViews.UpdateStatus` | myfirstweb/myshop/admin_views.py:180-210 | A POST on an existing bike with a posted status always stores that status and returns success. Rentals change only on the Rented→Available transition, and then as `CloseLatestOpen` states. Any other method returns failure with status 400 and changes nothing. |
| `AdminViews.ApplyStatus` | myfirstweb/myshop/admin_views.py:185-207 | Stores the new status on the bike and leaves every other bike, every category and every customer as they were. On the Rented→Available transition it closes the bike's latest open rental; otherwise rentals are untouched. Referential integrity is kept. |
| `AdminViews.UpdateStatusView` | myfirstweb/myshop/admin_views.py:180-181 | The status change runs only when an admin is signed in. |
| `AdminViews.AddInventoryView` | myfirstweb/myshop/admin_views.py:104-105 | Adding inventory runs only when an admin is signed in. |
| `AdminViews.DeleteVehicleView` | myfirstweb/myshop/admin_views.py:170-171 | Deleting runs only when an admin is signed in. |
| `AdminProperties.LogoutIdempotent` | myfirstweb/myshop/admin_views.py:33-40 | Logging out twice is the same as logging out once. |
| `AdminProperties.LogoutUndoesSignIn` | myfirstweb/myshop/admin_views.py:24-40 | Logging out after a sign-in gives the same result as logging out without it. |
| `AdminProperties.GuardAfterLogout` | myfirstweb/myshop/admin_views.py:12-14 | After a logout, every guarded page redirects to `admin_login` and changes nothing. |
| `AdminProperties.GuardAfterSignIn` | myfirstweb/myshop/admin_views.py:12-14 | After a sign-in, every guarded page runs its own handler. |
| `AdminProperties.CheckoutEndsAdminSession` | myfirstweb/myshop/views.py:120 | The flush at checkout also signs out an admin who uses the same session. |
| `AdminProperties.UpdateStatusIdempotent` | myfirstweb/myshop/admin_views.py:184-207 | Sending the same status again, at any later time, changes nothing more. |
| `AdminProperties.ReturnClosesOne` | myfirstweb/myshop/admin_views.py:191-207 | On a return, exactly one open rental with the latest start date is closed, stamped with `now` and set to Done. Every other rental is unchanged. |
| `AdminProperties.CheckoutOpensRental` | myfirstweb/myshop/views.py:110-117 | A booked rental is open for its bike, so a later return of that bike has a rental to close. |
| `AdminProperties.AddThenDeleteRestores` | myfirstweb/myshop/admin_views.py:114-122 | Deleting the bike just added from inventory restores the bike and rental rows, because the new bike has no rentals. |
| `AdminProperties.DeleteVehicleNoDangling` | myfirstweb/myshop/admin_views.py:170-176 | After a delete, no rental refers to the deleted bike and no reference dangles. |
| `AdminProperties.DeleteCategoryNoDangling` | myfirstweb/myshop/models.py:46 | After deleting a category, no bike of that category remains, no rental of such a bike remains, and no reference dangles. |

## Left out

- Template rendering, URL routing and response plumbing: a response is only
  its kind and target (`Redirect`, `Render`, `Json`, ...). The context passed to
  the templates is not modelled.
- `Home`, `AdminDashboard`, `CustomerList`, `BookingList`, `VehicleList`,
  `CreateModel` and `EditVehicle`: `Home` only renders a page. `AdminDashboard`
  counts rows, and the three list views list them. `CreateModel` and
  `EditVehicle` create or save a bike and catch every exception. Several refer
  to columns that the models do not define (`created_at`, `payment_status`,
  `engine_size`, `description`).
- `AdminLogin`: the credential lookup is left out. Only a successful login's
  effect on the session is modelled (`SignIn`).
- `AdminViews.SignIn`: as written, no login can succeed. The handler looks the
  admin up by a `password` column, but `models.py` defines only `password_hash`.
  The resulting `FieldError` is not an `Admin.DoesNotExist`, so the handler's
  `except` does not catch it. The model follows the evident intent, which is
  that a matching admin is signed in.
- `test_session.py`: a smoke script for the session backend, with no logic.
- Date and time parsing: passed as the parameter `parse`. Instants are opaque
  ordered integers, and `now` is a parameter.
- Decimal prices are integers in minor units. The `max_digits` bound is not
  modelled, and neither are the `max_length` bounds of character columns.
- Concurrency between sessions: double booking is not modelled, since the code
  does not coordinate it.
- Session mechanics: how values are serialised, and the new session key that a
  flush issues.
- The Admin table: only a login reads it, so `Db` does not hold it.
- `Http.ParsePk`: only plain ASCII digit strings are accepted. Python's `int()`
  also accepts surrounding whitespace, a sign, underscores between digits, and
  decimal digits of other scripts (Arabic-Indic or full-width digits, for
  example).
- `Http.Field`: a field posted several times is one value (the form is a map).
- `AdminViews.Latest`: the query orders by start date only, so among rentals
  with equal start dates the database may return any one. The model picks the
  lowest key, and the contract promises only a latest start date.
- `AdminViews.AddInventory`: as written, no bike is ever added. The handler
  reads `engine_size` and `description` from the source bike, and `models.py`
  defines neither. The `AttributeError` this raises is caught by the handler's
  broad `except`, so every POST re-renders the form with an error. The model
  follows the evident intent: it copies the columns the Bike model does define
  and creates the bike.
- `AdminViews.UpdateStatus`: as written, the Rented→Available transition does
  not close a rental. The handler filters rentals on `payment_status`, and the
  Rental model's column is `status`. The filter raises a `FieldError` after the
  new bike status is saved, and nothing catches it, so the reply is a server
  error. The model follows the evident intent and reads `payment_status` as the
  rental's `status`.
