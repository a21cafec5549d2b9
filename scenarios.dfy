/**
 * Client code: request sequences against a fresh application, checked from the
 * handlers' contracts alone.
 */
module Scenarios {
  import opened Wrappers
  import opened Models
  import opened Routes
  import Forms

  const CornerShop := Forms.StoreForm("Corner Shop", "1 Main St")
  const Milk := Forms.ItemForm("Milk", Some(350), "Produce", "", 1)
  const Alice := Forms.SignUpForm("alice", "secret1", "secret1")
  const Bob := Forms.SignUpForm("bob", "secret2", "secret2")

  lemma StoreExampleValid()
    ensures Forms.StoreFormValid(CornerShop)
  {
    assert CornerShop.title[0] == 'C' && CornerShop.address[0] == '1';
  }

  lemma ItemExampleValid(isUrl: string -> bool)
    ensures Forms.ItemFormValid(Milk, {1}, isUrl)
    ensures Forms.CategoryOf(Milk.category) == Produce
    ensures !Forms.CategoryValid("produce")
  {
    assert Milk.name[0] == 'M';
    assert Value(Produce) == "Produce";
    Forms.CategoryChoicesAreMembers("Produce");
    Forms.CategoryChoicesAreMembers("produce");
  }

  lemma SignUpExamplesValid(users: map<int, User>)
    ensures !HasUsername(users, "alice") ==> Forms.SignUpFormValid(Alice, users)
    ensures !HasUsername(users, "bob") ==> Forms.SignUpFormValid(Bob, users)
  {
    assert "alice"[0] == 'a' && "secret1"[0] == 's' && "bob"[0] == 'b' && "secret2"[0] == 's';
  }

  /** Six spaces are long enough for a password but blank, so sign-up refuses them. */
  lemma SixSpacesRejected(users: map<int, User>)
    ensures Forms.LengthAtLeast("      ", 6)
    ensures !Forms.SignUpFormValid(Forms.SignUpForm("alice", "      ", "      "), users)
  {
    assert Forms.Blank("      ");
    Forms.BlankPasswordRejected(Forms.SignUpForm("alice", "      ", "      "), users);
  }

  /** "a" passes the login form but can never be registered. */
  lemma OneLetterName(users: map<int, User>)
    ensures Forms.LoginFormValid(Forms.LoginForm("a", "secret"))
    ensures forall confirm :: !Forms.SignUpFormValid(Forms.SignUpForm("a", "secret", confirm), users)
  {
    assert "a"[0] == 'a' && "secret"[0] == 's';
    forall confirm {
      Forms.LoginTakesShortNames(Forms.LoginForm("a", "secret"), confirm, users);
    }
  }

  lemma OtherExamplesValid()
    ensures Forms.ListFormValid(Forms.ListForm("Groceries"))
    ensures Forms.LoginFormValid(Forms.LoginForm("alice", "secret1"))
    ensures Forms.LoginFormValid(Forms.LoginForm("alice", "wrong-1"))
    ensures Forms.LoginFormValid(Forms.LoginForm("mallory", "secret1"))
    ensures Forms.LoginFormValid(Forms.LoginForm("bob", "secret2"))
  {
    assert "alice"[0] == 'a' && "secret1"[0] == 's' && "bob"[0] == 'b' && "secret2"[0] == 's';
    assert "wrong-1"[0] == 'w' && "mallory"[0] == 'm' && "Groceries"[0] == 'G';
  }

  /** A store and then an item of it; the first rows of both tables get id 1. */
  method StoreThenItem(services: Services)
  {
    StoreExampleValid();
    ItemExampleValid(services.isUrl);
    var app := new App(services);
    var r := app.NewStore(Some(CornerShop));
    assert r == Redirect(StorePage(1));
    assert app.db.stores[1] == Store("Corner Shop", "1 Main St");

    // The select field takes only a value exactly as listed, so "produce" is refused ...
    r := app.NewItem(Some(Milk.(category := "produce")));
    assert r == Render;

    // ... while "Produce" is stored as the member Produce.
    r := app.NewItem(Some(Milk));
    assert r == Redirect(ItemPage(1));
    assert app.db.items[1] == Item("Milk", 350, Produce, "", 1);
  }

  /** The second sign-up with a taken user name is refused and adds nobody. */
  method SignUpTwice(services: Services, salt1: nat, salt2: nat)
  {
    SignUpExamplesValid(map[]);
    var app := new App(services);
    var r := app.SignUp(Some(Alice), salt1);
    assert r == Redirect(LoginPage);
    assert app.db.users[1].username == "alice";

    var second := Forms.SignUpForm("alice", "secret2", "secret2");
    Forms.TakenUsernameRejected(second, app.db.users, 1);
    r := app.SignUp(Some(second), salt2);
    assert r == Render && 2 !in app.db.users;
  }

  /** A wrong password and an unknown user give the same response and leave the session anonymous. */
  method WrongPasswordTwice(services: Services, salt: nat)
    requires !services.checkHash(services.hash("secret1", salt), "wrong-1")
  {
    SignUpExamplesValid(map[]);
    var app := new App(services);
    var r := app.SignUp(Some(Alice), salt);
    assert app.db.users == map[1 := User("alice", services.hash("secret1", salt))];
    FailedLogins(app, salt);
  }

  method FailedLogins(app: App, salt: nat)
    requires app.Valid() && app.session == Anonymous
    requires app.db.users == map[1 := User("alice", app.services.hash("secret1", salt))]
    requires !app.services.checkHash(app.services.hash("secret1", salt), "wrong-1")
    modifies app
  {
    OtherExamplesValid();
    var wrong, nobody := Forms.LoginForm("alice", "wrong-1"), Forms.LoginForm("mallory", "secret1");
    assert !app.CredentialsMatch(wrong) && !app.CredentialsMatch(nobody) by {
      assert "alice" != "mallory" by { assert "alice"[0] != "mallory"[0]; }
    }
    var r1 := app.Login(Some(wrong));
    var r2 := app.Login(Some(nobody));
    assert r1 == r2 == InvalidLogin;
    assert app.session == Anonymous;
  }

  /** Alice creates a list; Bob can neither add to it, nor delete from it, nor see it listed. */
  method OnlyTheOwnerEdits(services: Services, saltA: nat, saltB: nat)
    requires services.checkHash(services.hash("secret1", saltA), "secret1")
    requires services.checkHash(services.hash("secret2", saltB), "secret2")
  {
    var app := new App(services);
    SignUpExamplesValid(app.db.users);
    var r := app.SignUp(Some(Alice), saltA);
    SignUpExamplesValid(app.db.users);
    assert !HasUsername(app.db.users, "bob");
    r := app.SignUp(Some(Bob), saltB);
    AliceCreatesList(app, saltA, saltB);
    BobLogsIn(app, saltB);
    BobIsTurnedAway(app);
  }

  method AliceCreatesList(app: App, saltA: nat, saltB: nat)
    requires app.Valid() && app.db.shoppingLists == map[] && app.db.nextListId == 1
    requires app.db.users == map[1 := User("alice", app.services.hash("secret1", saltA)),
                                 2 := User("bob", app.services.hash("secret2", saltB))]
    requires app.services.checkHash(app.services.hash("secret1", saltA), "secret1")
    modifies app, app.db
    ensures app.Valid() && app.session == Anonymous
    ensures app.db.users == old(app.db.users)
    ensures app.db.shoppingLists == map[1 := ShoppingList("Groceries", 1)]
  {
    OtherExamplesValid();
    var loginA := Forms.LoginForm("alice", "secret1");
    assert app.CredentialsMatch(loginA) by { assert app.db.users[1].username == "alice"; }
    var r := app.Login(Some(loginA));
    assert app.session == Authenticated(1) by {
      assert "alice" != "bob" by { assert "alice"[0] != "bob"[0]; }
    }
    r := app.ShoppingListPage(Some(Forms.ListForm("Groceries")));
    assert r == Redirect(ListPage(1));
    r := app.Logout();
  }

  method BobLogsIn(app: App, saltB: nat)
    requires app.Valid()
    requires 2 in app.db.users && app.db.users[2] == User("bob", app.services.hash("secret2", saltB))
    requires app.services.checkHash(app.services.hash("secret2", saltB), "secret2")
    modifies app
    ensures app.Valid() && app.session == Authenticated(2)
  {
    OtherExamplesValid();
    var loginB := Forms.LoginForm("bob", "secret2");
    assert app.CredentialsMatch(loginB);
    var r := app.Login(Some(loginB));
  }

  method BobIsTurnedAway(app: App)
    requires app.Valid() && app.session == Authenticated(2)
    requires app.db.shoppingLists == map[1 := ShoppingList("Groceries", 1)]
    modifies app.db
  {
    var r := app.ShoppingListDetail(1, Some(Forms.EntryForm(1, Some(2))));
    assert r == NoPermission;
    r := app.DeleteShoppingListItem(1, 1);
    assert r == NoPermission;
    BobSeesNoLists(app);
  }

  method BobSeesNoLists(app: App)
    requires app.Valid() && app.session == Authenticated(2)
    requires app.db.shoppingLists == map[1 := ShoppingList("Groceries", 1)]
    modifies app.db
  {
    var r := app.ShoppingListPage(None);
    assert r.RenderLists? && 1 !in r.listIds;
    assert r.listIds == {} by {
      forall id | id in r.listIds ensures false { }
    }
  }
}
