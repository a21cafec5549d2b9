# Grocery store app: data model and access rules in Dafny

A model of a small multi-user grocery-list web application. Users browse stores
and the items they sell, sign up and log in, keep shopping lists, and add items to
a list with a quantity or remove them. The model covers the tables and the two
queries of a shopping list (`grocery_app/models.py`), the request handlers that
act on them and check list ownership (`grocery_app/routes.py`), and the form
validators that guard every write except the removal of an item from a list,
which takes no form (`grocery_app/forms.py`).

- `wrappers.dfy`: `Option`.
- `models.dfy` (module `Models`): the `ItemCategory` enum and its
  case-insensitive `_missing_` lookup (a method with the source's loop), the
  records, the association table `shopping_list_items` as a map from
  `(shopping_list_id, item_id)` to quantity (the composite primary key makes
  the pair unique), `get_item_quantity` (`Quantity`), `total_price` (the method
  `Database.TotalPrice`, proved against the function `ListTotal`), and the class
  `Database` that holds all tables in maps, with the insert and delete statements
  on the association table.
- `forms.dfy` (module `Forms`): one predicate per validator (`DataRequired`,
  `Length`, `NumberRange`, `EqualTo`, `Optional` + `URL`, the select field's
  choice check), one predicate per form, `validate_username`, and lemmas that give
  each form's acceptance condition in plain terms.
- `routes.dfy` (module `Routes`): the class `App` with the database, the login
  session (`Anonymous` or `Authenticated(userId)`) and the library services, and
  one method per handler. Each method keeps `App.Valid()`: primary and foreign
  keys, unique user names, store titles and addresses, item names, prices and
  photo URLs, list names and user names that passed their fields' validators
  (the stored password hash passed none; only the password did), quantities
  of at least 1, and a session naming an existing user.
- `scenarios.dfy` (module `Scenarios`): client methods that call the handlers
  in sequence on a fresh application and prove the outcomes from the contracts:
  a store and an item get id 1, a second sign-up as "alice" is refused,
  a wrong password and an unknown user get the same response, and Bob cannot
  touch or list Alice's list.

Modelling choices:

- Prices are integer cents. Ids come from one counter per table starting at 1.
  No handler deletes a store, item, list or user, so this is the same as SQLite
  (the engine assumed throughout, see "## Left out")
  giving each new row its largest id plus one.
- A GET request is a `None` form. A POST is a form value. `validate_on_submit`
  is `form.Some? && <form>Valid(form.value)`: the fields' validators only. The
  CSRF token check of `FlaskForm` is not modelled (see "## Left out").
- Text fields carry the submitted string. Number fields carry `None` when no
  number was submitted. A query-select field carries the submitted primary key;
  it is valid when that row exists.
- `DataRequired` tests the data after `str.strip()`. `IsSpace` lists exactly the
  characters Python's `str.isspace()` accepts. On a number field, `DataRequired`
  rejects the falsy value 0.
- `str.lower()` is modelled on the characters that can make a string equal to
  an ASCII string when lowered: A-Z, and the KELVIN SIGN U+212A, which lowers
  to 'k'. Other characters stay as they are. So comparing a submitted string
  against the six ASCII category values gives the same answer as Python.
- bcrypt, the `URL()` validator and the salt are collaborators. `Services`
  holds `hash(password, salt)`, `checkHash(hash, password)` and `isUrl`, and the
  application receives them when it is built. The random salt is a parameter
  of `SignUp`.
- Adding an item that is already on the list runs an insert that breaks the
  composite primary key. SQLAlchemy raises `IntegrityError`, which no handler
  catches, so the response is a server error. The model answers `ServerError`
  and changes no table. A second add neither adds to the quantity nor replaces it.
- SQLite stores an INTEGER as a signed 64-bit value. A quantity above
  2^63 - 1 passes `IntegerField` and `NumberRange(min=1)`, but binding it to the
  insert statement raises `OverflowError`. The model answers `ServerError` and
  changes no table, so every stored quantity lies in 1 .. 2^63 - 1.
- `store_detail` and `item_detail` on an id with no row: `query.get` gives
  None. A GET, or an invalid POST, still renders the page. A valid POST assigns
  to None and raises, and the model answers `ServerError` with no change.

Where the code does other than its own messages and defaults suggest, the
model follows the code:

- A price of 0 is rejected, as the message 'Price must be greater than 0'
  (grocery_app/forms.py:36) says, but not by the validator that carries that
  message: `NumberRange(min=0)` admits 0, and `DataRequired` treats 0 as
  missing (`Forms.PriceAccepts`).
- A category that matches no member does not fall back to `Other`.
  `_missing_` returns `None`, so the lookup fails (`Models.Missing`). `Other`
  is only the column default (grocery_app/models.py:62). No handler uses that
  default, because the select field always supplies a value, so the model has
  no constant for it.
- The category select field accepts only the six values exactly as written.
  "produce" is refused on the item form even though `_missing_` would resolve
  it (`Scenarios.StoreThenItem`).
- A failed login leaves the session as it was. It does not log out a user who
  is already logged in.

## Model

| member | source | states |
|---|---|---|
| `Models.Missing` | grocery_app/models.py:16-22 | The result is a member whose value equals the input ignoring case. The result is None exactly when no member's value does. Any member lowercase-equal to the input is the result. |
| `Models.LowerValuesDistinct` | grocery_app/models.py:9-14 | No two members have the same lower-cased value, so the case-insensitive match is unique. |
| `Models.FromValue` | grocery_app/models.py:57-63 | The enum column's lookup by stored value. A found member has exactly that value. Nothing is found exactly when no member has it. |
| `Models.FromValueOfValue` | grocery_app/models.py:57-63 | Every member is found again from its own stored value. |
| `Models.Quantity` | grocery_app/models.py:88-94 | `get_item_quantity`: the quantity column of the row keyed (list, item), and 0 when there is no such row. |
| `Models.QuantityReadsOneRow` | grocery_app/models.py:88-94 | `get_item_quantity` reads only the row keyed (list, item). Two tables that agree on that row give the same quantity. |
| `Models.ListItemIds` | grocery_app/models.py:82-86 | The list's items are exactly the existing items that have a row for (list, item). |
| `Models.SubtotalSplit` | grocery_app/models.py:99-103 | The sum may take its items in any order. Splitting off any item gives that item's price times quantity plus the sum of the rest. |
| `Models.SubtotalAgree` | grocery_app/models.py:99-103 | A partial sum depends only on the prices and quantities of its own items. |
| `Models.TotalOfEmptyList` | grocery_app/models.py:96-103 | A list with no association rows has total price 0. |
| `Models.TotalReadsOwnRows` | grocery_app/models.py:99-103 | A list's total depends only on that list's rows and on the prices of its items. |
| `Models.TotalAfterInsert` | grocery_app/models.py:99-103 | Inserting the row (list, item, q) for an item not yet on the list raises the total by price times q. |
| `Models.TotalAfterDelete` | grocery_app/models.py:99-103 | Deleting the row (list, item) lowers the total by price times the item's old quantity. The old quantity is 0 when there was no row. |
| `Models.InsertKeepsOtherTotals` | grocery_app/models.py:99-103 | Inserting a row for one list leaves every other list's total as it was. |
| `Models.DeleteKeepsOtherTotals` | grocery_app/models.py:99-103 | Deleting a row of one list leaves every other list's total as it was. |
| `Models.TotalNonNegative` | grocery_app/models.py:96-103 | With no negative price or quantity, no total is negative. |
| `Models.Database.Valid` | grocery_app/models.py:26-111 | The schema's constraints: every id lies between 1 and its table's counter; every item's `store_id` names an existing store (models.py:65-66); every list's `user_id` names an existing user (models.py:80); every association row's list and item exist (models.py:31, 37); no two users share a user name (models.py:109). |
| `Models.Database.constructor` | app.py:6-8 | The database as `drop_all` followed by `create_all` leaves it: every table empty, the schema's constraints holding, and every id counter at 1. `create_all` alone (grocery_app/__init__.py:22-24) keeps rows of an earlier run; counters equal to SQLite's largest id plus one rely on starting from these empty tables. |
| `Models.Database.TotalPrice` | grocery_app/models.py:96-103 | The loop over the list's items, adding price times `get_item_quantity`, returns exactly `ListTotal`. It changes no table. |
| `Models.Database.UserByName` | grocery_app/routes.py:185 | The lookup by user name finds an id exactly when some user has that name. The id found has that name. With unique names it is the only such id. |
| `Models.Database.InsertRow` | grocery_app/routes.py:123-128 | The insert succeeds exactly when no row exists for the pair; the composite key is at grocery_app/models.py:26-41. On success only that row is added, and `get_item_quantity` then returns the quantity. On failure nothing changes. The list's total rises by price times quantity, and every other list's total stays the same. |
| `Models.Database.DeleteRows` | grocery_app/routes.py:148-153 | Only the row keyed (list, item) is removed, and every other row is kept unchanged. Without such a row nothing changes, so a repeated delete is a no-op. The quantity is then 0. The list's total falls by that row's line total, and other lists' totals stay the same. |
| `Forms.StoreFormValid` | grocery_app/forms.py:13-23 | The store form's validator lists: `DataRequired` and `Length(1, 80)` on the title, `DataRequired` and `Length(1, 200)` on the address. |
| `Forms.StoreFormAccepts` | grocery_app/forms.py:15-22 | The store form accepts exactly a non-blank title of at most 80 characters and a non-blank address of at most 200. The minimum length 1 adds nothing to `DataRequired`. |
| `Forms.CategoryChoicesAreMembers` | grocery_app/forms.py:39-42 | There are six category choices. A submitted value is a choice exactly when it is some member's value. |
| `Forms.CategoryOf` | grocery_app/models.py:57-63 | A valid choice maps to the member whose value it is. |
| `Forms.ItemFormValid` | grocery_app/forms.py:26-51 | The item form's validator lists: name `DataRequired` and `Length(1, 80)`, price `DataRequired` and `NumberRange(min=0)`, category one of the choices, photo URL `Optional` then `URL`, and a store that exists. |
| `Forms.ItemFormAccepts` | grocery_app/forms.py:28-51 | The item form accepts exactly: a non-blank name of at most 80 characters, a positive price, a member's value as category, a blank photo URL or a URL, and an existing store. |
| `Forms.PriceAccepts` | grocery_app/forms.py:32-38 | A price is accepted exactly when it is present and greater than 0. `DataRequired` rejects 0; `NumberRange(min=0)` rejects negative prices. |
| `Forms.ListFormValid` | grocery_app/forms.py:55-61 | The list form's validator list: `DataRequired` and `Length(1, 80)` on the name. |
| `Forms.ListFormAccepts` | grocery_app/forms.py:57-60 | A list name is accepted exactly when it is non-blank and at most 80 characters. |
| `Forms.EntryFormValid` | grocery_app/forms.py:64-78 | The list-entry form: an item that exists, and a quantity with `DataRequired` and `NumberRange(min=1)`. |
| `Forms.QuantityAccepts` | grocery_app/forms.py:71-77 | A quantity is accepted exactly when it is present and at least 1. |
| `Forms.UsernameAvailable` | grocery_app/forms.py:100-105 | `validate_username`: no existing user has the submitted name. |
| `Forms.SignUpFormValid` | grocery_app/forms.py:81-105 | The sign-up form: name `DataRequired` and `Length(3, 80)` and `validate_username`, password `DataRequired` and `Length(min=6)`, confirmation `DataRequired` and `EqualTo('password')`. |
| `Forms.SignUpFormAccepts` | grocery_app/forms.py:83-105 | Sign-up accepts exactly: a non-blank user name of 3..80 characters that no user has, a non-blank password of at least 6 characters, and a confirmation equal to the password. |
| `Forms.TakenUsernameRejected` | grocery_app/forms.py:100-105 | A name some user already has is always refused. |
| `Forms.BlankPasswordRejected` | grocery_app/forms.py:87-90 | Every sign-up whose password is blank is refused, whatever the password's length, and so is its confirmation. |
| `Forms.LoginFormValid` | grocery_app/forms.py:108-118 | The login form's validator lists: `DataRequired` on the user name and on the password, and nothing else. |
| `Forms.LoginAcceptsSignUpCredentials` | grocery_app/forms.py:110-117 | The name and password of every accepted sign-up pass the login form. |
| `Forms.LoginTakesShortNames` | grocery_app/forms.py:110-117 | The login form checks no length: every non-blank name shorter than 3 characters, with a non-blank password, passes it, while no sign-up with that name is valid. |
| `Routes.App.Valid` | grocery_app/routes.py:25-200 | The invariant every handler requires and keeps: `Database.Valid`; every stored store title and address, item name, price and photo URL, list name and user name passes its field's validators; every association row's quantity lies in 1 .. 2^63 - 1; a logged-in session names an existing user. |
| `Routes.App.OwnsList` | grocery_app/routes.py:114-115 | The ownership test of `shopping_list_detail` and `delete_shopping_list_item` (also routes.py:142-143): the caller is logged in, the list exists, and its `user_id` is the caller's id. |
| `Routes.App.CredentialsMatch` | grocery_app/routes.py:185-188 | `user and bcrypt.check_password_hash(...)`: some user has the submitted name and the submitted password checks against that user's stored hash. |
| `Routes.App.constructor` | app.py:1-8 | The application that app.py builds with the factory of grocery_app/extensions.py:13-27, after dropping and recreating its tables: empty tables, an anonymous session and the given services. |
| `Routes.App.NewStore` | grocery_app/routes.py:25-39 | A valid form adds the store under a fresh id and redirects to it. Nothing else changes. Otherwise the page is rendered and nothing changes. |
| `Routes.App.NewItem` | grocery_app/routes.py:41-58 | A valid form adds the item under a fresh id, with price, category (the chosen member), photo URL and an existing store. Otherwise nothing changes. |
| `Routes.App.StoreDetail` | grocery_app/routes.py:60-72 | A valid form overwrites the title and address of that store only. Every other row and table stays unchanged. On an unknown id a valid form is a server error; otherwise the page renders. Either way nothing changes. |
| `Routes.App.ItemDetail` | grocery_app/routes.py:74-89 | A valid form overwrites the name, price, category, photo URL and store of that item only. Its id and its list rows are kept. On an unknown id a valid form is a server error; otherwise the page renders. Either way nothing changes. |
| `Routes.App.ShoppingListPage` | grocery_app/routes.py:91-109 | Anonymous callers are sent to log in. A valid form creates a list owned by the caller, who then owns it. Otherwise the page lists exactly the lists whose owner is the caller, and nothing changes. |
| `Routes.App.ShoppingListDetail` | grocery_app/routes.py:111-137 | Anonymous callers are sent to log in. An unknown list is not found. A caller who does not own the list gets no permission. In all three cases nothing changes. For the owner, a valid form inserts exactly the row (list, item, q), after which the quantity is q. If the pair is already present, or q exceeds SQLite's 64-bit integer, the response is a server error and nothing changes. |
| `Routes.App.DeleteShoppingListItem` | grocery_app/routes.py:139-155 | The same three refusals, each leaving every table unchanged. For the owner, exactly the row (list, item) is removed. If there is no such row, nothing changes. |
| `Routes.App.SignUp` | grocery_app/routes.py:161-178 | A valid form adds a user under a fresh id that stores hash(password, salt), never the password. User names stay unique. |
| `Routes.App.Login` | grocery_app/routes.py:180-193 | The caller becomes authenticated exactly when a user has the name and the password checks against that user's hash. The session is then that user. A missing user and a wrong password give the same `InvalidLogin` and leave the session unchanged. |
| `Routes.App.Logout` | grocery_app/routes.py:195-200 | The session ends anonymous. An anonymous caller is first sent to log in. |

## Left out

- Templates, `flash` messages, `redirect`/`url_for` targets beyond the page kind, the `next` query parameter and the `print` in `homepage`. They are presentation. `homepage` only lists all stores, so it is not modelled.
- SQLAlchemy sessions, `commit`, rollback and SQL statement building. Each handler's change happens as one step on the in-memory maps. A failed request changes nothing.
- The CSRF token check of `FlaskForm`. The running application loads its configuration from `grocery_app.config.Config` (grocery_app/extensions.py:15), a module that is not part of this model, so its settings are not known. Flask-WTF runs the check by default (`WTF_CSRF_ENABLED` defaults to true); `SECRET_KEY`, which the unused factory sets at grocery_app/__init__.py:9, is only the key the token is signed with, and without one rendering or validating a form raises `RuntimeError`. In the source, a POST whose fields are valid but whose token is missing or wrong renders the page and changes nothing. The model has no token, so it treats such a POST as valid and performs the write.
- The cryptography of bcrypt, and constant-time comparison. They are the `Services.hash` and `Services.checkHash` parameters. Nothing is assumed about them.
- The `URL()` validator's grammar. It is the `Services.isUrl` parameter.
- Float prices (`FloatField`, `db.Float`). The model uses integer cents, so it loses every price that is not a whole number of cents (such as 3.505), the value `inf`, which `FloatField` parses and `DataRequired` and `NumberRange(min=0)` both let through (grocery_app/forms.py:32-38), and float rounding in the sum of grocery_app/models.py:99-103, whose result can depend on the order of the items.
- Models.SubtotalSplit: "in any order" holds for the model's integer cents; the source's float sum is not associative.
- `created_at` and the clock.
- `load_user`, the flask_login cookie and the `login_required` redirect's return target. The model keeps one client's session state only.
- `extensions.py`, the Flask configuration and the server start in `app.py`: application setup. The table reset of app.py:6-8 is the database constructor. The factory in `grocery_app/__init__.py` is not the one app.py uses.
- The database engine is taken to be SQLite, the engine the factory of grocery_app/__init__.py:7 configures; the configuration module of the running application is not part of this model. The 64-bit quantity bound (`Models.MaxSqliteInteger`) and ids equal to the largest id plus one depend on this.
- Concurrency and transaction isolation between requests.
- Models.MaxSqliteInteger: the 64-bit bound is modelled for the quantity only. Ids come from counters and never reach it in practice; prices are floats in the source and are not bounded here.
- Models.LowerChar: models Python's `str.lower()` only on A-Z and U+212A. For other characters that have a lower-case mapping the model's result differs from Python's, but that never changes whether a string equals one of the six ASCII category values.
- Forms.IsSpace: exact for `str.strip()`. `Length` counts code points as Python's `len` does.
