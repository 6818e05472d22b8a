/**
 * The state the controllers work on: the `ToDoLists` table of the database
 * context, and the user and role store of the identity framework.
 */
module Data {
  import opened Wrappers
  import opened Models
  import opened Queries

  /** A user record of the identity store: its email and the roles it holds. */
  datatype UserAccount = UserAccount(email: Option<string>, roles: set<string>)

  /** The database context; only its `ToDoLists` table is modelled. */
  class AppDbContext {
    /** The table, keyed by the integer primary key. */
    var toDoLists: map<int, ToDoList>
    /** The next value the identity column hands out. */
    var nextId: int

    ghost predicate Valid()
      reads this
    {
      && nextId >= 1
      && KeyedById(toDoLists)
      && (forall k :: k in toDoLists ==> 1 <= k < nextId && IsStoredRow(toDoLists[k]))
    }

    constructor ()
      ensures Valid() && toDoLists == map[] && nextId == 1
    {
      toDoLists := map[];
      nextId := 1;
    }

    /** `ToDoLists.ToListAsync()`: every row once, in ascending id order. */
    function AllRows(): (rows: seq<ToDoList>)
      reads this
      requires Valid()
      ensures forall k :: k in toDoLists ==> toDoLists[k] in rows
      ensures forall x :: x in rows ==> x.id in toDoLists && toDoLists[x.id] == x
      ensures IdsAscending(rows)
    {
      TableRowsListsEveryEntry(toDoLists, 1, nextId);
      TableRowsAscending(toDoLists, 1, nextId);
      TableRows(toDoLists, 1, nextId)
    }

    /** `ToDoLists.Where(t => t.UserId == userId).ToListAsync()`: exactly the user's rows. */
    function RowsOwnedBy(userId: string): (rows: seq<ToDoList>)
      reads this
      requires Valid()
      ensures forall k :: OwnsEntry(toDoLists, k, userId) ==> toDoLists[k] in rows
      ensures forall x :: x in rows ==>
        x.userId == Some(userId) && x.id in toDoLists && toDoLists[x.id] == x
      ensures IdsAscending(rows)
    {
      var all := AllRows();
      forall x ensures x in OwnedBy(all, userId) <==> x in all && x.userId == Some(userId) {
        OwnedByContains(all, userId, x);
      }
      OwnedByAscending(all, userId);
      OwnedBy(all, userId)
    }
  }

  /** The identity framework's user manager and role manager over one store. */
  class IdentityStore {
    /** The role names that exist. */
    var roles: set<string>
    /** The users, by id. */
    var users: map<string, UserAccount>

    /** Every role a user holds exists in the role store. */
    ghost predicate Valid()
      reads this
    {
      forall u :: u in users ==> users[u].roles <= roles
    }

    constructor ()
      ensures Valid() && roles == {} && users == map[]
    {
      roles := {};
      users := map[];
    }
  }
}
