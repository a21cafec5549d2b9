/**
 * The submission forms. Each field's declared validator list becomes a conjunction
 * of predicates over the submitted value, one predicate per WTForms validator;
 * `validate_username` is a read-only check against the users table.
 *
 * Text fields carry a string. A number field carries `None` when nothing parsable
 * was submitted. A query-select field carries the primary key that was submitted
 * and is valid when that row exists. Prices are integer cents.
 */
module Forms {
  import opened Wrappers
  import Models

  // ---------------------------------------------------------------------------
  // Validators
  // ---------------------------------------------------------------------------

  /** The characters Python's `str.strip()` removes (those for which `str.isspace()` holds). */
  predicate IsSpace(c: char) {
    || ('\t' <= c <= '\r')
    || ('\U{1C}' <= c <= '\U{1F}')
    || c == ' '
    || c == '\U{85}'
    || c == '\U{A0}'
    || c == '\U{1680}'
    || ('\U{2000}' <= c <= '\U{200A}')
    || c == '\U{2028}'
    || c == '\U{2029}'
    || c == '\U{202F}'
    || c == '\U{205F}'
    || c == '\U{3000}'
  }

  /** Empty once stripped. */
  predicate Blank(s: string) {
    forall i :: 0 <= i < |s| ==> IsSpace(s[i])
  }

  /** `DataRequired()` on a text field: the data is not blank. */
  predicate DataRequired(s: string) {
    !Blank(s)
  }

  /** `DataRequired()` on a number field: the data is present and truthy, so not 0. */
  predicate NumberRequired(n: Option<int>) {
    n.Some? && n.value != 0
  }

  /** `Length(min, max)`. */
  predicate LengthBetween(s: string, min: nat, max: nat) {
    min <= |s| <= max
  }

  /** `Length(min)` with no maximum. */
  predicate LengthAtLeast(s: string, min: nat) {
    min <= |s|
  }

  /** `NumberRange(min)` with no maximum; absent data is out of range. */
  predicate NumberRange(n: Option<int>, min: int) {
    n.Some? && n.value >= min
  }

  /** `EqualTo(other)`. */
  predicate EqualTo(s: string, other: string) {
    s == other
  }

  /** `SelectField`: the data is the value of one of the choices. */
  predicate ValidChoice(s: string, choices: seq<(string, string)>) {
    exists k :: 0 <= k < |choices| && choices[k].0 == s
  }

  /** `Optional()` followed by `URL()`: blank data stops the chain, anything else must be a URL. */
  predicate OptionalUrl(s: string, isUrl: string -> bool) {
    Blank(s) || isUrl(s)
  }

  // ---------------------------------------------------------------------------
  // GroceryStoreForm
  // ---------------------------------------------------------------------------

  datatype StoreForm = StoreForm(title: string, address: string)

  predicate TitleValid(title: string) {
    DataRequired(title) && LengthBetween(title, 1, 80)
  }

  predicate AddressValid(address: string) {
    DataRequired(address) && LengthBetween(address, 1, 200)
  }

  predicate StoreFormValid(f: StoreForm) {
    TitleValid(f.title) && AddressValid(f.address)
  }

  /** The store form accepts exactly a non-blank title of at most 80 and a non-blank address of at most 200 characters. */
  lemma StoreFormAccepts(f: StoreForm)
    ensures StoreFormValid(f) <==> && !Blank(f.title) && |f.title| <= 80
                                   && !Blank(f.address) && |f.address| <= 200
  {
    if !Blank(f.title) {
      NonBlankIsNonEmpty(f.title);
    }
    if !Blank(f.address) {
      NonBlankIsNonEmpty(f.address);
    }
  }

  /** The minimum length 1 adds nothing to `DataRequired`: a non-blank string is not empty. */
  lemma NonBlankIsNonEmpty(s: string)
    requires DataRequired(s)
    ensures |s| >= 1
  {
  }

  // ---------------------------------------------------------------------------
  // GroceryItemForm
  // ---------------------------------------------------------------------------

  datatype ItemForm = ItemForm(name: string, price: Option<int>, category: string, photoUrl: string, storeId: int)

  /** The category choices: one (value, label) pair per member, both the member's value, in declaration order. */
  function CategoryChoices(): seq<(string, string)> {
    seq(|Models.Members|, k requires 0 <= k < |Models.Members| =>
      (Models.Value(Models.Members[k]), Models.Value(Models.Members[k])))
  }

  /** The choices are the six members' values and nothing else. */
  lemma CategoryChoicesAreMembers(s: string)
    ensures |CategoryChoices()| == 6
    ensures ValidChoice(s, CategoryChoices()) <==> exists c: Models.Category :: Models.Value(c) == s
  {
    var choices := CategoryChoices();
    if c: Models.Category :| Models.Value(c) == s {
      var k := Models.IndexOf(c);
      assert choices[k].0 == s;
    }
  }

  predicate ItemNameValid(name: string) {
    DataRequired(name) && LengthBetween(name, 1, 80)
  }

  predicate PriceValid(price: Option<int>) {
    NumberRequired(price) && NumberRange(price, 0)
  }

  predicate CategoryValid(category: string) {
    ValidChoice(category, CategoryChoices())
  }

  predicate PhotoUrlValid(photoUrl: string, isUrl: string -> bool) {
    OptionalUrl(photoUrl, isUrl)
  }

  /** `stores` is the set of existing store ids the store field may select from. */
  predicate ItemFormValid(f: ItemForm, stores: set<int>, isUrl: string -> bool) {
    && ItemNameValid(f.name)
    && PriceValid(f.price)
    && CategoryValid(f.category)
    && PhotoUrlValid(f.photoUrl, isUrl)
    && f.storeId in stores
  }

  /**
   * The item form accepts exactly: a non-blank name of at most 80 characters, a
   * positive price, one of the category values, a blank photo URL or a URL, and
   * an existing store.
   */
  lemma ItemFormAccepts(f: ItemForm, stores: set<int>, isUrl: string -> bool)
    ensures ItemFormValid(f, stores, isUrl) <==>
      && !Blank(f.name) && |f.name| <= 80
      && f.price.Some? && f.price.value > 0
      && (exists c: Models.Category :: Models.Value(c) == f.category)
      && (Blank(f.photoUrl) || isUrl(f.photoUrl))
      && f.storeId in stores
  {
    CategoryChoicesAreMembers(f.category);
    if !Blank(f.name) {
      NonBlankIsNonEmpty(f.name);
    }
  }

  /**
   * `DataRequired` rejects a price of 0 although `NumberRange(min=0)` admits it,
   * so a price is accepted exactly when it is present and positive.
   */
  lemma PriceAccepts(price: Option<int>)
    ensures PriceValid(price) <==> price.Some? && price.value > 0
  {
  }

  /** A valid category is the value of a member, which the category column can store. */
  lemma CategoryValidHasMember(category: string)
    requires CategoryValid(category)
    ensures Models.FromValue(category).Some?
  {
    CategoryChoicesAreMembers(category);
  }

  /** The member a valid category choice stores in the item's category column. */
  function CategoryOf(category: string): (c: Models.Category)
    requires CategoryValid(category)
    ensures Models.Value(c) == category
  {
    CategoryValidHasMember(category);
    Models.FromValue(category).value
  }

  // ---------------------------------------------------------------------------
  // ShoppingListForm and ShoppingListItemForm
  // ---------------------------------------------------------------------------

  datatype ListForm = ListForm(name: string)

  predicate ListNameValid(name: string) {
    DataRequired(name) && LengthBetween(name, 1, 80)
  }

  predicate ListFormValid(f: ListForm) {
    ListNameValid(f.name)
  }

  /** A list name is accepted exactly when it is non-blank and at most 80 characters long. */
  lemma ListFormAccepts(f: ListForm)
    ensures ListFormValid(f) <==> !Blank(f.name) && |f.name| <= 80
  {
    if !Blank(f.name) {
      NonBlankIsNonEmpty(f.name);
    }
  }

  datatype EntryForm = EntryForm(itemId: int, quantity: Option<int>)

  predicate QuantityValid(quantity: Option<int>) {
    NumberRequired(quantity) && NumberRange(quantity, 1)
  }

  /** `items` is the set of existing item ids the item field may select from. */
  predicate EntryFormValid(f: EntryForm, items: set<int>) {
    f.itemId in items && QuantityValid(f.quantity)
  }

  /** A quantity is accepted exactly when it is present and at least 1. */
  lemma QuantityAccepts(quantity: Option<int>)
    ensures QuantityValid(quantity) <==> quantity.Some? && quantity.value >= 1
  {
  }

  // ---------------------------------------------------------------------------
  // SignUpForm and LoginForm
  // ---------------------------------------------------------------------------

  datatype SignUpForm = SignUpForm(username: string, password: string, confirmPassword: string)

  predicate UsernameValid(username: string) {
    DataRequired(username) && LengthBetween(username, 3, 80)
  }

  predicate PasswordValid(password: string) {
    DataRequired(password) && LengthAtLeast(password, 6)
  }

  predicate ConfirmPasswordValid(confirmPassword: string, password: string) {
    DataRequired(confirmPassword) && EqualTo(confirmPassword, password)
  }

  /** `validate_username`: no existing user has the submitted name. */
  predicate UsernameAvailable(username: string, users: map<int, Models.User>) {
    !Models.HasUsername(users, username)
  }

  predicate SignUpFormValid(f: SignUpForm, users: map<int, Models.User>) {
    && UsernameValid(f.username)
    && UsernameAvailable(f.username, users)
    && PasswordValid(f.password)
    && ConfirmPasswordValid(f.confirmPassword, f.password)
  }

  /**
   * Sign-up accepts exactly: a non-blank user name of 3 to 80 characters that no
   * user has, a non-blank password of at least 6 characters, and a confirmation
   * equal to the password.
   */
  lemma SignUpFormAccepts(f: SignUpForm, users: map<int, Models.User>)
    ensures SignUpFormValid(f, users) <==>
      && !Blank(f.username) && 3 <= |f.username| <= 80
      && (forall id :: id in users ==> users[id].username != f.username)
      && !Blank(f.password) && |f.password| >= 6
      && f.confirmPassword == f.password
  {
  }

  /** Once a user has a name, no sign-up with that name is accepted. */
  lemma TakenUsernameRejected(f: SignUpForm, users: map<int, Models.User>, id: int)
    requires id in users && users[id].username == f.username
    ensures !SignUpFormValid(f, users)
  {
  }

  /** A blank password is refused whatever its length, and so is any confirmation of it. */
  lemma BlankPasswordRejected(f: SignUpForm, users: map<int, Models.User>)
    requires Blank(f.password)
    ensures !SignUpFormValid(f, users)
    ensures !PasswordValid(f.password) && !ConfirmPasswordValid(f.confirmPassword, f.password)
  {
  }

  datatype LoginForm = LoginForm(username: string, password: string)

  predicate LoginFormValid(f: LoginForm) {
    DataRequired(f.username) && DataRequired(f.password)
  }

  /**
   * The login form checks no lengths and no users, so the credentials of every
   * accepted sign-up pass it, and so do non-blank names sign-up refuses as too short.
   */
  lemma LoginAcceptsSignUpCredentials(f: SignUpForm, users: map<int, Models.User>)
    requires SignUpFormValid(f, users)
    ensures LoginFormValid(LoginForm(f.username, f.password))
  {
  }

  /** A name shorter than 3 characters cannot sign up, yet the login form takes it. */
  lemma LoginTakesShortNames(f: LoginForm, confirm: string, users: map<int, Models.User>)
    requires !Blank(f.username) && |f.username| < 3 && !Blank(f.password)
    ensures LoginFormValid(f)
    ensures !SignUpFormValid(SignUpForm(f.username, f.password, confirm), users)
  {
  }
}
