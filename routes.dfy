/**
 * The request handlers. Each handler is a method of `App`, which holds the
 * database, the session of the one client being modelled, and the library
 * services the handlers call (password hashing and URL checking), passed in
 * when the application is built.
 *
 * A GET request, or a POST whose form does not validate, is a `None` or an
 * invalid form: the handler renders its page and changes nothing. Every
 * handler keeps `App.Valid()`: the schema's constraints, every stored value
 * having passed its form's validators, and a session that names an existing user.
 */
module Routes {
  import opened Wrappers
  import opened Models
  import Forms

  /** The login session: nobody, or the id of the user who logged in. */
  datatype Session = Anonymous | Authenticated(userId: int)

  datatype Page = Home | StorePage(storeId: int) | ItemPage(itemId: int) | ListPage(listId: int) | LoginPage

  datatype Response =
    | Redirect(to: Page)             // success: the change is committed, then a redirect
    | Render                         // the handler's own page, with its form
    | RenderLists(listIds: set<int>) // the shopping-list page, listing the caller's lists
    | NotFound                       // `get_or_404` found no such list
    | NoPermission                   // the caller does not own the list: back to the listing
    | LoginRequired                  // `login_required` sends an anonymous caller to log in
    | InvalidLogin                   // the one message for a missing user and a wrong password
    | ServerError                    // an uncaught exception: a broken primary key, an integer
                                     // too wide for SQLite, or an update of a missing row

  /**
   * The library code the handlers call: `hash(password, salt)` is bcrypt's
   * `generate_password_hash` with the random salt made a parameter,
   * `checkHash(hash, password)` is `check_password_hash`, and `isUrl` is the
   * `URL()` validator.
   */
  datatype Services = Services(
    hash: (string, nat) -> string,
    checkHash: (string, string) -> bool,
    isUrl: string -> bool)

  /** What every stored item passed: the item form's checks on its own fields. */
  predicate StoredItemValid(item: Item, isUrl: string -> bool) {
    && Forms.ItemNameValid(item.name)
    && Forms.PriceValid(Some(item.price))
    && Forms.PhotoUrlValid(item.photoUrl, isUrl)
  }

  class App {
    const db: Database
    const services: Services
    var session: Session

    ghost predicate Valid()
      reads this, db
    {
      && db.Valid()
      && (session.Authenticated? ==> session.userId in db.users)
      && (forall id :: id in db.stores ==>
            Forms.TitleValid(db.stores[id].title) && Forms.AddressValid(db.stores[id].address))
      && (forall id :: id in db.items ==> StoredItemValid(db.items[id], services.isUrl))
      && (forall id :: id in db.shoppingLists ==> Forms.ListNameValid(db.shoppingLists[id].name))
      && (forall id :: id in db.users ==> Forms.UsernameValid(db.users[id].username))
      && (forall k :: k in db.shoppingListItems ==> 1 <= db.shoppingListItems[k] <= MaxSqliteInteger)
    }

    /** The caller is logged in and owns the list. */
    predicate OwnsList(listId: int)
      reads this, db
    {
      session.Authenticated? && listId in db.shoppingLists && db.shoppingLists[listId].userId == session.userId
    }

    /** Some user has the submitted name and the submitted password checks against its hash. */
    predicate CredentialsMatch(f: Forms.LoginForm)
      reads this, db
    {
      exists id :: id in db.users && db.users[id].username == f.username
                   && services.checkHash(db.users[id].passwordHash, f.password)
    }

    constructor (services: Services)
      ensures Valid() && fresh(db)
      ensures this.services == services && session == Anonymous
      ensures db.State() == Tables(map[], map[], map[], map[], map[], 1, 1, 1, 1)
    {
      db := new Database();
      this.services := services;
      session := Anonymous;
    }

    /** `new_store`: a valid form adds a store under the next id. */
    method NewStore(form: Option<Forms.StoreForm>) returns (r: Response)
      requires Valid()
      modifies db
      ensures Valid()
      ensures form.Some? && Forms.StoreFormValid(form.value) ==>
        var id := old(db.nextStoreId);
        && id !in old(db.stores)
        && r == Redirect(StorePage(id))
        && db.State() == old(db.State()).(
             stores := old(db.stores)[id := Store(form.value.title, form.value.address)],
             nextStoreId := id + 1)
      ensures !(form.Some? && Forms.StoreFormValid(form.value)) ==> r == Render && unchanged(db)
    {
      if form.Some? && Forms.StoreFormValid(form.value) {
        var id := db.nextStoreId;
        db.stores := db.stores[id := Store(form.value.title, form.value.address)];
        db.nextStoreId := id + 1;
        r := Redirect(StorePage(id));
      } else {
        r := Render;
      }
    }

    /** `new_item`: a valid form adds an item of an existing store under the next id. */
    method NewItem(form: Option<Forms.ItemForm>) returns (r: Response)
      requires Valid()
      modifies db
      ensures Valid()
      ensures form.Some? && Forms.ItemFormValid(form.value, old(db.stores.Keys), services.isUrl) ==>
        var f, id := form.value, old(db.nextItemId);
        && id !in old(db.items)
        && r == Redirect(ItemPage(id))
        && db.State() == old(db.State()).(
             items := old(db.items)[id := Item(f.name, f.price.value, Forms.CategoryOf(f.category), f.photoUrl, f.storeId)],
             nextItemId := id + 1)
      ensures !(form.Some? && Forms.ItemFormValid(form.value, old(db.stores.Keys), services.isUrl)) ==>
        r == Render && unchanged(db)
    {
      if form.Some? && Forms.ItemFormValid(form.value, db.stores.Keys, services.isUrl) {
        var f, id := form.value, db.nextItemId;
        db.items := db.items[id := Item(f.name, f.price.value, Forms.CategoryOf(f.category), f.photoUrl, f.storeId)];
        db.nextItemId := id + 1;
        r := Redirect(ItemPage(id));
      } else {
        r := Render;
      }
    }

    /**
     * `store_detail`: a valid form overwrites the store's title and address. An
     * unknown id still renders its page; a valid submission to it raises.
     */
    method StoreDetail(storeId: int, form: Option<Forms.StoreForm>) returns (r: Response)
      requires Valid()
      modifies db
      ensures Valid()
      ensures form.Some? && Forms.StoreFormValid(form.value) && storeId in old(db.stores) ==>
        && r == Redirect(StorePage(storeId))
        && db.State() == old(db.State()).(
             stores := old(db.stores)[storeId := Store(form.value.title, form.value.address)])
      ensures form.Some? && Forms.StoreFormValid(form.value) && storeId !in old(db.stores) ==>
        r == ServerError && unchanged(db)
      ensures !(form.Some? && Forms.StoreFormValid(form.value)) ==> r == Render && unchanged(db)
    {
      if form.Some? && Forms.StoreFormValid(form.value) {
        if storeId !in db.stores {
          // `query.get` gave None, and assigning its title raises
          return ServerError;
        }
        db.stores := db.stores[storeId := db.stores[storeId].(title := form.value.title, address := form.value.address)];
        r := Redirect(StorePage(storeId));
      } else {
        r := Render;
      }
    }

    /**
     * `item_detail`: a valid form overwrites the item's name, price, category, photo
     * URL and store; the item keeps its id and its shopping-list rows. An unknown
     * id still renders its page; a valid submission to it raises.
     */
    method ItemDetail(itemId: int, form: Option<Forms.ItemForm>) returns (r: Response)
      requires Valid()
      modifies db
      ensures Valid()
      ensures form.Some? && Forms.ItemFormValid(form.value, old(db.stores.Keys), services.isUrl)
              && itemId in old(db.items) ==>
        var f := form.value;
        && r == Redirect(ItemPage(itemId))
        && db.State() == old(db.State()).(
             items := old(db.items)[itemId := Item(f.name, f.price.value, Forms.CategoryOf(f.category), f.photoUrl, f.storeId)])
      ensures form.Some? && Forms.ItemFormValid(form.value, old(db.stores.Keys), services.isUrl)
              && itemId !in old(db.items) ==>
        r == ServerError && unchanged(db)
      ensures !(form.Some? && Forms.ItemFormValid(form.value, old(db.stores.Keys), services.isUrl)) ==>
        r == Render && unchanged(db)
    {
      if form.Some? && Forms.ItemFormValid(form.value, db.stores.Keys, services.isUrl) {
        if itemId !in db.items {
          // `query.get` gave None, and assigning its name raises
          return ServerError;
        }
        var f := form.value;
        db.items := db.items[itemId := db.items[itemId].(
          name := f.name, price := f.price.value, category := Forms.CategoryOf(f.category),
          photoUrl := f.photoUrl, storeId := f.storeId)];
        r := Redirect(ItemPage(itemId));
      } else {
        r := Render;
      }
    }

    /**
     * `shopping_list`: a valid form creates a list owned by the caller; otherwise
     * the page lists exactly the lists the caller owns.
     */
    method ShoppingListPage(form: Option<Forms.ListForm>) returns (r: Response)
      requires Valid()
      modifies db
      ensures Valid()
      ensures session.Anonymous? ==> r == LoginRequired && unchanged(db)
      ensures session.Authenticated? && form.Some? && Forms.ListFormValid(form.value) ==>
        var id := old(db.nextListId);
        && id !in old(db.shoppingLists)
        && r == Redirect(ListPage(id))
        && db.State() == old(db.State()).(
             shoppingLists := old(db.shoppingLists)[id := ShoppingList(form.value.name, session.userId)],
             nextListId := id + 1)
        && OwnsList(id)
      ensures session.Authenticated? && !(form.Some? && Forms.ListFormValid(form.value)) ==>
        && unchanged(db)
        && r.RenderLists?
        && forall id :: id in r.listIds <==> id in db.shoppingLists && db.shoppingLists[id].userId == session.userId
    {
      if session.Anonymous? {
        return LoginRequired;
      }
      var userId := session.userId;
      if form.Some? && Forms.ListFormValid(form.value) {
        var id := db.nextListId;
        db.shoppingLists := db.shoppingLists[id := ShoppingList(form.value.name, userId)];
        db.nextListId := id + 1;
        r := Redirect(ListPage(id));
      } else {
        var owned := set id | id in db.shoppingLists && db.shoppingLists[id].userId == userId;
        r := RenderLists(owned);
      }
    }

    /**
     * `shopping_list_detail`: the owner adds the row (list, item, quantity) of a valid
     * form; a row already present for the pair violates the primary key and nothing
     * is stored.
     */
    method ShoppingListDetail(listId: int, form: Option<Forms.EntryForm>) returns (r: Response)
      requires Valid()
      modifies db
      ensures Valid()
      ensures session.Anonymous? ==> r == LoginRequired && unchanged(db)
      ensures session.Authenticated? && listId !in old(db.shoppingLists) ==> r == NotFound && unchanged(db)
      ensures session.Authenticated? && listId in old(db.shoppingLists) && !old(OwnsList(listId)) ==>
        r == NoPermission && unchanged(db)
      ensures old(OwnsList(listId)) && !(form.Some? && Forms.EntryFormValid(form.value, old(db.items.Keys))) ==>
        r == Render && unchanged(db)
      ensures old(OwnsList(listId)) && form.Some? && Forms.EntryFormValid(form.value, old(db.items.Keys)) ==>
        var key := (listId, form.value.itemId);
        var q := form.value.quantity.value;
        && (key in old(db.shoppingListItems) || q > MaxSqliteInteger ==> r == ServerError && unchanged(db))
        && (key !in old(db.shoppingListItems) && q <= MaxSqliteInteger ==>
              && r == Redirect(ListPage(listId))
              && db.State() == old(db.State()).(
                   shoppingListItems := old(db.shoppingListItems)[key := form.value.quantity.value])
              && Quantity(db.shoppingListItems, listId, form.value.itemId) == form.value.quantity.value)
    {
      if session.Anonymous? {
        return LoginRequired;
      }
      if listId !in db.shoppingLists {
        return NotFound;
      }
      if db.shoppingLists[listId].userId != session.userId {
        return NoPermission;
      }
      if form.Some? && Forms.EntryFormValid(form.value, db.items.Keys) {
        if form.value.quantity.value > MaxSqliteInteger {
          // binding the quantity to the statement overflows SQLite's 64-bit integer
          return ServerError;
        }
        var ok := db.InsertRow(listId, form.value.itemId, form.value.quantity.value);
        r := if ok then Redirect(ListPage(listId)) else ServerError;
      } else {
        r := Render;
      }
    }

    /**
     * `delete_shopping_list_item`: the owner deletes the row keyed (list, item) and
     * no other; without such a row nothing changes.
     */
    method DeleteShoppingListItem(listId: int, itemId: int) returns (r: Response)
      requires Valid()
      modifies db
      ensures Valid()
      ensures session.Anonymous? ==> r == LoginRequired && unchanged(db)
      ensures session.Authenticated? && listId !in old(db.shoppingLists) ==> r == NotFound && unchanged(db)
      ensures session.Authenticated? && listId in old(db.shoppingLists) && !old(OwnsList(listId)) ==>
        r == NoPermission && unchanged(db)
      ensures old(OwnsList(listId)) ==>
        && r == Redirect(ListPage(listId))
        && db.State() == old(db.State()).(shoppingListItems := old(db.shoppingListItems) - {(listId, itemId)})
        && (listId, itemId) !in db.shoppingListItems
      ensures old(OwnsList(listId)) && (listId, itemId) !in old(db.shoppingListItems) ==> unchanged(db)
    {
      if session.Anonymous? {
        return LoginRequired;
      }
      if listId !in db.shoppingLists {
        return NotFound;
      }
      if db.shoppingLists[listId].userId != session.userId {
        return NoPermission;
      }
      db.DeleteRows(listId, itemId);
      r := Redirect(ListPage(listId));
    }

    /** `signup`: a valid form adds a user that stores the hash of the password, never the password. */
    method SignUp(form: Option<Forms.SignUpForm>, salt: nat) returns (r: Response)
      requires Valid()
      modifies db
      ensures Valid()
      ensures form.Some? && Forms.SignUpFormValid(form.value, old(db.users)) ==>
        var f, id := form.value, old(db.nextUserId);
        && id !in old(db.users)
        && r == Redirect(LoginPage)
        && db.State() == old(db.State()).(
             users := old(db.users)[id := User(f.username, services.hash(f.password, salt))],
             nextUserId := id + 1)
      ensures !(form.Some? && Forms.SignUpFormValid(form.value, old(db.users))) ==> r == Render && unchanged(db)
    {
      if form.Some? && Forms.SignUpFormValid(form.value, db.users) {
        var f, id := form.value, db.nextUserId;
        db.users := db.users[id := User(f.username, services.hash(f.password, salt))];
        db.nextUserId := id + 1;
        r := Redirect(LoginPage);
      } else {
        r := Render;
      }
    }

    /**
     * `login`: the session becomes the user's exactly when a user has the submitted
     * name and the password checks against its hash. A missing user and a wrong
     * password give the same response and leave the session as it was.
     */
    method Login(form: Option<Forms.LoginForm>) returns (r: Response)
      requires Valid()
      modifies this
      ensures Valid()
      ensures !(form.Some? && Forms.LoginFormValid(form.value)) ==> r == Render
      ensures form.Some? && Forms.LoginFormValid(form.value) ==>
        (r == Redirect(Home) <==> CredentialsMatch(form.value))
      ensures form.Some? && Forms.LoginFormValid(form.value) && !CredentialsMatch(form.value) ==> r == InvalidLogin
      ensures r == Redirect(Home) ==>
        && session.Authenticated?
        && session.userId in db.users
        && db.users[session.userId].username == form.value.username
        && services.checkHash(db.users[session.userId].passwordHash, form.value.password)
      ensures r != Redirect(Home) ==> session == old(session)
    {
      if form.Some? && Forms.LoginFormValid(form.value) {
        var f := form.value;
        var found := db.UserByName(f.username);
        if found.Some? && services.checkHash(db.users[found.value].passwordHash, f.password) {
          session := Authenticated(found.value);
          r := Redirect(Home);
        } else {
          r := InvalidLogin;
        }
      } else {
        r := Render;
      }
    }

    /** `logout`: the session ends anonymous whatever it was. */
    method Logout() returns (r: Response)
      requires Valid()
      modifies this
      ensures Valid()
      ensures session == Anonymous
      ensures r == if old(session).Anonymous? then LoginRequired else Redirect(Home)
    {
      r := if session.Anonymous? then LoginRequired else Redirect(Home);
      session := Anonymous;
    }
  }
}
