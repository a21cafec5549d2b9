/**
 * The grocery data model: the item categories, the four entity tables, the
 * `shopping_list_items` association table and the two derived queries of a
 * shopping list (the quantity of one item and the total price).
 *
 * The database is in-memory state: every table is a map keyed by primary key,
 * and the association table is a map keyed by the composite primary key
 * (shopping_list_id, item_id), so at most one row exists per pair.
 * Prices are integer cents.
 */
module Models {
  import opened Wrappers

  // ---------------------------------------------------------------------------
  // Item categories
  // ---------------------------------------------------------------------------

  datatype Category = Produce | Deli | Bakery | Pantry | Frozen | Other

  /** The stored value of each member. */
  function Value(c: Category): string {
    match c
    case Produce => "Produce"
    case Deli => "Deli"
    case Bakery => "Bakery"
    case Pantry => "Pantry"
    case Frozen => "Frozen"
    case Other => "Other"
  }

  /** The members in declaration order, the order in which iterating the enum visits them. */
  const Members: seq<Category> := [Produce, Deli, Bakery, Pantry, Frozen, Other]

  /** The position of a member in `Members`. */
  function IndexOf(c: Category): (k: nat)
    ensures k < |Members| && Members[k] == c
  {
    match c
    case Produce => 0
    case Deli => 1
    case Bakery => 2
    case Pantry => 3
    case Frozen => 4
    case Other => 5
  }

  /**
   * Python's `str.lower()` on one character, as far as it can make a string equal
   * to an ASCII one: the letters A-Z, and the KELVIN SIGN (U+212A) whose lower case
   * is the ASCII 'k'. Every other character is left alone.
   */
  function LowerChar(c: char): char {
    if 'A' <= c <= 'Z' then (c as int + 32) as char
    else if c == '\U{212A}' then 'k'
    else c
  }

  function Lower(s: string): string {
    seq(|s|, i requires 0 <= i < |s| => LowerChar(s[i]))
  }

  /** Two different members never have the same lower-case value. */
  lemma LowerValuesDistinct(c: Category, d: Category)
    requires c != d
    ensures Lower(Value(c)) != Lower(Value(d))
  {
    var u, v := Lower(Value(c)), Lower(Value(d));
    if u[0] == v[0] {
      // only Produce and Pantry share their first letter
      assert u[1] == LowerChar(Value(c)[1]);
    }
  }

  /**
   * `ItemCategory._missing_`: visit the members in order and return the first whose
   * value equals `value` ignoring case; when none does, no member (None), so the
   * lookup fails instead of falling back to a default.
   */
  method Missing(value: string) returns (r: Option<Category>)
    ensures r.Some? ==> Lower(Value(r.value)) == Lower(value)
    ensures r.None? <==> forall c: Category :: Lower(Value(c)) != Lower(value)
    ensures forall c: Category :: Lower(Value(c)) == Lower(value) ==> r == Some(c)
  {
    for k := 0 to |Members|
      invariant forall j :: 0 <= j < k ==> Lower(Value(Members[j])) != Lower(value)
    {
      var member := Members[k];
      if Lower(Value(member)) == Lower(value) {
        forall c: Category | Lower(Value(c)) == Lower(value)
          ensures c == member
        {
          if c != member { LowerValuesDistinct(c, member); }
        }
        return Some(member);
      }
    }
    forall c: Category ensures Lower(Value(c)) != Lower(value) {
      var k := IndexOf(c);
      assert Lower(Value(Members[k])) != Lower(value);
    }
    return None;
  }

  /**
   * The exact lookup by stored value that the `Enum` column (declared with the
   * members' values) performs when it reads or writes a category.
   */
  function FromValue(s: string): (r: Option<Category>)
    ensures r.Some? ==> Value(r.value) == s
    ensures r.None? <==> forall c: Category :: Value(c) != s
  {
    if s == "Produce" then Some(Produce)
    else if s == "Deli" then Some(Deli)
    else if s == "Bakery" then Some(Bakery)
    else if s == "Pantry" then Some(Pantry)
    else if s == "Frozen" then Some(Frozen)
    else if s == "Other" then Some(Other)
    else None
  }

  /** Every member is found again from its own value. */
  lemma FromValueOfValue(c: Category)
    ensures FromValue(Value(c)) == Some(c)
  {
  }

  /** The largest value SQLite stores in an INTEGER column (a signed 64-bit integer). */
  const MaxSqliteInteger: int := 0x7FFF_FFFF_FFFF_FFFF

  // ---------------------------------------------------------------------------
  // Records
  // ---------------------------------------------------------------------------

  datatype Store = Store(title: string, address: string)

  /** `price` is in cents; `storeId` is never null. */
  datatype Item = Item(name: string, price: int, category: Category, photoUrl: string, storeId: int)

  /** `userId` is never null. The creation timestamp is not modelled. */
  datatype ShoppingList = ShoppingList(name: string, userId: int)

  /** `passwordHash` is what the password hasher produced, never the password. */
  datatype User = User(username: string, passwordHash: string)

  /** The association table: (shopping_list_id, item_id) to quantity. */
  type Rows = map<(int, int), int>

  /** Some user has this user name. */
  predicate HasUsername(users: map<int, User>, username: string) {
    exists id :: id in users && users[id].username == username
  }

  /** The `unique=True` constraint on `User.username`. */
  ghost predicate UsernamesUnique(users: map<int, User>) {
    forall a, b :: a in users && b in users && users[a].username == users[b].username ==> a == b
  }

  // ---------------------------------------------------------------------------
  // The derived queries of a shopping list
  // ---------------------------------------------------------------------------

  /** `ShoppingList.get_item_quantity`: the quantity in the row for the pair, 0 without one. */
  function Quantity(rows: Rows, listId: int, itemId: int): int {
    if (listId, itemId) in rows then rows[(listId, itemId)] else 0
  }

  /** The quantity of a pair is read from that pair's row alone. */
  lemma QuantityReadsOneRow(rows: Rows, rows': Rows, listId: int, itemId: int)
    requires (listId, itemId) in rows <==> (listId, itemId) in rows'
    requires (listId, itemId) in rows ==> rows[(listId, itemId)] == rows'[(listId, itemId)]
    ensures Quantity(rows, listId, itemId) == Quantity(rows', listId, itemId)
  {
  }

  /**
   * `ShoppingList.items`: the ids of the items joined to the list through the
   * association table (a row whose item does not exist joins nothing).
   */
  function ListItemIds(items: map<int, Item>, rows: Rows, listId: int): (ids: set<int>)
    ensures ids <= items.Keys
    ensures forall i :: i in ids <==> i in items && (listId, i) in rows
  {
    set k | k in rows && k.0 == listId && k.1 in items :: k.1
  }

  /** A set that is not empty has an element. */
  lemma HasElement(s: set<int>)
    ensures s == {} || exists x :: x in s
  {
    if !(exists x :: x in s) {
      assert s == {};
    }
  }

  /** Some element of a non-empty set; which one is left open. */
  ghost function Pick(s: set<int>): (x: int)
    requires s != {}
    ensures x in s
  {
    assert exists y :: y in s by { HasElement(s); }
    var y :| y in s; y
  }

  /** What one item adds to the total of a list: its price times its quantity. */
  function LineTotal(items: map<int, Item>, rows: Rows, listId: int, itemId: int): int
    requires itemId in items
  {
    items[itemId].price * Quantity(rows, listId, itemId)
  }

  /** The sum of the line totals of the items `ids`. */
  ghost function Subtotal(items: map<int, Item>, rows: Rows, listId: int, ids: set<int>): int
    requires ids <= items.Keys
    decreases ids
  {
    if ids == {} then 0
    else
      var i := Pick(ids);
      LineTotal(items, rows, listId, i) + Subtotal(items, rows, listId, ids - {i})
  }

  /** `ShoppingList.total_price`: the sum over the list's items of price times quantity. */
  ghost function ListTotal(items: map<int, Item>, rows: Rows, listId: int): int {
    Subtotal(items, rows, listId, ListItemIds(items, rows, listId))
  }

  /** A subtotal can be split at any of its items, not only at the one `Pick` chooses. */
  lemma {:induction false} SubtotalSplit(items: map<int, Item>, rows: Rows, listId: int, ids: set<int>, i: int)
    requires ids <= items.Keys && i in ids
    ensures Subtotal(items, rows, listId, ids)
         == LineTotal(items, rows, listId, i) + Subtotal(items, rows, listId, ids - {i})
    decreases ids
  {
    var p := Pick(ids);
    if p != i {
      SubtotalSplit(items, rows, listId, ids - {p}, i);
      SubtotalSplit(items, rows, listId, ids - {i}, p);
      assert ids - {p} - {i} == ids - {i} - {p};
    }
  }

  /** A subtotal depends only on the prices and quantities of its own items. */
  lemma {:induction false} SubtotalAgree(items: map<int, Item>, rows: Rows, items': map<int, Item>, rows': Rows,
                                         listId: int, ids: set<int>)
    requires ids <= items.Keys && ids <= items'.Keys
    requires forall i :: i in ids ==> LineTotal(items, rows, listId, i) == LineTotal(items', rows', listId, i)
    ensures Subtotal(items, rows, listId, ids) == Subtotal(items', rows', listId, ids)
    decreases ids
  {
    if ids != {} {
      var i := Pick(ids);
      SubtotalAgree(items, rows, items', rows', listId, ids - {i});
    }
  }

  /** With no price and no quantity negative, no subtotal is negative. */
  lemma {:induction false} SubtotalNonNegative(items: map<int, Item>, rows: Rows, listId: int, ids: set<int>)
    requires ids <= items.Keys
    requires forall i :: i in ids ==> items[i].price >= 0 && Quantity(rows, listId, i) >= 0
    ensures Subtotal(items, rows, listId, ids) >= 0
    decreases ids
  {
    if ids != {} {
      var i := Pick(ids);
      SubtotalNonNegative(items, rows, listId, ids - {i});
    }
  }

  /** A list without association rows totals 0. */
  lemma TotalOfEmptyList(items: map<int, Item>, rows: Rows, listId: int)
    requires forall i :: (listId, i) !in rows
    ensures ListTotal(items, rows, listId) == 0
  {
    var ids := ListItemIds(items, rows, listId);
    forall i ensures i !in ids {
      assert (listId, i) !in rows;
    }
    assert ids == {};
  }

  /**
   * The total of a list depends only on that list's rows and on its items: rows of
   * other lists, and other items, do not enter it.
   */
  lemma TotalReadsOwnRows(items: map<int, Item>, rows: Rows, items': map<int, Item>, rows': Rows, listId: int)
    requires forall i :: (listId, i) in rows <==> (listId, i) in rows'
    requires forall i :: (listId, i) in rows ==> rows[(listId, i)] == rows'[(listId, i)]
    requires forall i :: (listId, i) in rows ==> (i in items <==> i in items')
    requires forall i :: (listId, i) in rows && i in items ==> items[i].price == items'[i].price
    ensures ListTotal(items, rows, listId) == ListTotal(items', rows', listId)
  {
    var ids := ListItemIds(items, rows, listId);
    var ids' := ListItemIds(items', rows', listId);
    forall i ensures i in ids <==> i in ids' {
      assert i in ids <==> i in items && (listId, i) in rows;
    }
    assert ids == ids';
    forall i | i in ids
      ensures LineTotal(items, rows, listId, i) == LineTotal(items', rows', listId, i)
    {
      QuantityReadsOneRow(rows, rows', listId, i);
    }
    SubtotalAgree(items, rows, items', rows', listId, ids);
  }

  /** Inserting the row (listId, itemId, q) raises the list's total by price times q. */
  lemma TotalAfterInsert(items: map<int, Item>, rows: Rows, listId: int, itemId: int, q: int)
    requires itemId in items && (listId, itemId) !in rows
    ensures ListTotal(items, rows[(listId, itemId) := q], listId)
         == ListTotal(items, rows, listId) + items[itemId].price * q
  {
    var rows' := rows[(listId, itemId) := q];
    var ids := ListItemIds(items, rows, listId);
    var ids' := ListItemIds(items, rows', listId);
    assert ids' == ids + {itemId};
    assert itemId !in ids;
    SubtotalSplit(items, rows', listId, ids', itemId);
    assert ids' - {itemId} == ids;
    SubtotalAgree(items, rows, items, rows', listId, ids);
  }

  /** Deleting the row (listId, itemId) lowers the list's total by that item's line total. */
  lemma TotalAfterDelete(items: map<int, Item>, rows: Rows, listId: int, itemId: int)
    requires itemId in items
    ensures ListTotal(items, rows - {(listId, itemId)}, listId)
         == ListTotal(items, rows, listId) - items[itemId].price * Quantity(rows, listId, itemId)
  {
    var rows' := rows - {(listId, itemId)};
    var ids := ListItemIds(items, rows, listId);
    var ids' := ListItemIds(items, rows', listId);
    assert ids' == ids - {itemId};
    if (listId, itemId) in rows {
      SubtotalSplit(items, rows, listId, ids, itemId);
    } else {
      assert ids' == ids;
    }
    SubtotalAgree(items, rows, items, rows', listId, ids');
  }

  /** Inserting a row for one list leaves the total of every other list as it was. */
  lemma InsertKeepsOtherTotals(items: map<int, Item>, rows: Rows, listId: int, itemId: int, q: int)
    ensures forall other :: other != listId ==>
      ListTotal(items, rows[(listId, itemId) := q], other) == ListTotal(items, rows, other)
  {
    forall other | other != listId
      ensures ListTotal(items, rows[(listId, itemId) := q], other) == ListTotal(items, rows, other)
    {
      TotalReadsOwnRows(items, rows[(listId, itemId) := q], items, rows, other);
    }
  }

  /** Deleting a row of one list leaves the total of every other list as it was. */
  lemma DeleteKeepsOtherTotals(items: map<int, Item>, rows: Rows, listId: int, itemId: int)
    ensures forall other :: other != listId ==>
      ListTotal(items, rows - {(listId, itemId)}, other) == ListTotal(items, rows, other)
  {
    forall other | other != listId
      ensures ListTotal(items, rows - {(listId, itemId)}, other) == ListTotal(items, rows, other)
    {
      TotalReadsOwnRows(items, rows - {(listId, itemId)}, items, rows, other);
    }
  }

  /** With non-negative prices and quantities, a list's total is never negative. */
  lemma TotalNonNegative(items: map<int, Item>, rows: Rows, listId: int)
    requires forall i :: i in items ==> items[i].price >= 0
    requires forall k :: k in rows ==> rows[k] >= 0
    ensures ListTotal(items, rows, listId) >= 0
  {
    SubtotalNonNegative(items, rows, listId, ListItemIds(items, rows, listId));
  }

  // ---------------------------------------------------------------------------
  // The database
  // ---------------------------------------------------------------------------

  /** A snapshot of every table and of the id each table hands out next. */
  datatype Tables = Tables(
    stores: map<int, Store>,
    items: map<int, Item>,
    shoppingLists: map<int, ShoppingList>,
    users: map<int, User>,
    shoppingListItems: Rows,
    nextStoreId: int,
    nextItemId: int,
    nextListId: int,
    nextUserId: int)

  /**
   * The tables of the application. Integer primary keys are handed out in
   * increasing order from 1.
   */
  class Database {
    var stores: map<int, Store>
    var items: map<int, Item>
    var shoppingLists: map<int, ShoppingList>
    var users: map<int, User>
    var shoppingListItems: Rows
    var nextStoreId: int
    var nextItemId: int
    var nextListId: int
    var nextUserId: int

    function State(): Tables
      reads this
    {
      Tables(stores, items, shoppingLists, users, shoppingListItems,
             nextStoreId, nextItemId, nextListId, nextUserId)
    }

    /** The schema's constraints: primary keys, foreign keys, and unique user names. */
    ghost predicate Valid()
      reads this
    {
      && 1 <= nextStoreId && 1 <= nextItemId && 1 <= nextListId && 1 <= nextUserId
      && (forall id :: id in stores ==> 1 <= id < nextStoreId)
      && (forall id :: id in items ==> 1 <= id < nextItemId)
      && (forall id :: id in shoppingLists ==> 1 <= id < nextListId)
      && (forall id :: id in users ==> 1 <= id < nextUserId)
      && (forall id :: id in items ==> items[id].storeId in stores)
      && (forall id :: id in shoppingLists ==> shoppingLists[id].userId in users)
      && (forall k :: k in shoppingListItems ==> k.0 in shoppingLists && k.1 in items)
      && UsernamesUnique(users)
    }

    /** The empty database that `create_all` leaves. */
    constructor ()
      ensures Valid()
      ensures State() == Tables(map[], map[], map[], map[], map[], 1, 1, 1, 1)
    {
      stores, items, shoppingLists, users, shoppingListItems := map[], map[], map[], map[], map[];
      nextStoreId, nextItemId, nextListId, nextUserId := 1, 1, 1, 1;
    }

    /**
     * `ShoppingList.total_price`: walk the list's items, adding price times quantity
     * for each. Reads the tables and changes none.
     */
    method TotalPrice(listId: int) returns (total: int)
      ensures total == ListTotal(items, shoppingListItems, listId)
    {
      var remaining := ListItemIds(items, shoppingListItems, listId);
      total := 0;
      while remaining != {}
        invariant remaining <= items.Keys
        invariant total + Subtotal(items, shoppingListItems, listId, remaining)
               == ListTotal(items, shoppingListItems, listId)
        decreases remaining
      {
        HasElement(remaining);
        var itemId :| itemId in remaining;
        SubtotalSplit(items, shoppingListItems, listId, remaining, itemId);
        var quantity := Quantity(shoppingListItems, listId, itemId);
        total := total + items[itemId].price * quantity;
        remaining := remaining - {itemId};
      }
    }

    /**
     * The insert statement on the association table: it adds the row
     * (listId, itemId, quantity) unless a row for the pair exists, which violates
     * the primary key, fails, and changes nothing.
     */
    method InsertRow(listId: int, itemId: int, quantity: int) returns (ok: bool)
      requires Valid()
      requires listId in shoppingLists && itemId in items
      modifies this
      ensures Valid()
      ensures ok <==> (listId, itemId) !in old(shoppingListItems)
      ensures !ok ==> unchanged(this)
      ensures ok ==> State() == old(State()).(shoppingListItems := old(shoppingListItems)[(listId, itemId) := quantity])
      ensures ok ==> Quantity(shoppingListItems, listId, itemId) == quantity
      ensures ok ==> ListTotal(items, shoppingListItems, listId)
                     == old(ListTotal(items, shoppingListItems, listId)) + items[itemId].price * quantity
      ensures forall other :: other != listId ==>
        ListTotal(items, shoppingListItems, other) == old(ListTotal(items, shoppingListItems, other))
    {
      ok := (listId, itemId) !in shoppingListItems;
      if ok {
        TotalAfterInsert(items, shoppingListItems, listId, itemId, quantity);
        InsertKeepsOtherTotals(items, shoppingListItems, listId, itemId, quantity);
        shoppingListItems := shoppingListItems[(listId, itemId) := quantity];
      }
    }

    /**
     * The delete statement on the association table for one pair: it removes the
     * row keyed (listId, itemId) and no other, and is a no-op without one.
     */
    method DeleteRows(listId: int, itemId: int)
      requires Valid()
      modifies this
      ensures Valid()
      ensures State() == old(State()).(shoppingListItems := old(shoppingListItems) - {(listId, itemId)})
      ensures (listId, itemId) !in old(shoppingListItems) ==> unchanged(this)
      ensures Quantity(shoppingListItems, listId, itemId) == 0
      ensures forall k :: k != (listId, itemId) ==>
        && (k in shoppingListItems <==> k in old(shoppingListItems))
        && (k in shoppingListItems ==> shoppingListItems[k] == old(shoppingListItems)[k])
      ensures itemId in items ==>
        ListTotal(items, shoppingListItems, listId)
        == old(ListTotal(items, shoppingListItems, listId))
           - items[itemId].price * old(Quantity(shoppingListItems, listId, itemId))
      ensures forall other :: other != listId ==>
        ListTotal(items, shoppingListItems, other) == old(ListTotal(items, shoppingListItems, other))
    {
      if (listId, itemId) !in shoppingListItems {
        assert shoppingListItems - {(listId, itemId)} == shoppingListItems;
      }
      if itemId in items {
        TotalAfterDelete(items, shoppingListItems, listId, itemId);
      }
      DeleteKeepsOtherTotals(items, shoppingListItems, listId, itemId);
      shoppingListItems := shoppingListItems - {(listId, itemId)};
    }

    /**
     * `User.query.filter_by(username=...).first()`: the id of a user with this
     * name, if there is one; with unique names it is the only one.
     */
    method UserByName(username: string) returns (r: Option<int>)
      requires Valid()
      ensures r.Some? <==> HasUsername(users, username)
      ensures r.Some? ==> r.value in users && users[r.value].username == username
      ensures r.Some? ==> forall id :: id in users && users[id].username == username ==> id == r.value
    {
      if id :| id in users && users[id].username == username {
        r := Some(id);
      } else {
        r := None;
      }
    }
  }
}
