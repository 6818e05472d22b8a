/**
 * The admin controller: to-do rows of every user, and role management.
 * The admin-role gate sits in front of it and is not part of it.
 */
module AdminApi {
  import opened Wrappers
  import opened Models
  import opened Queries
  import opened Results
  import opened Data

  class AdminToDoListController {
    const context: AppDbContext
    const userManager: IdentityStore

    constructor (context: AppDbContext, userManager: IdentityStore)
      ensures this.context == context && this.userManager == userManager
    {
      this.context := context;
      this.userManager := userManager;
    }

    /** GET AllToDoLists: every stored row whatever its owner, in id order; nothing changes. */
    method GetAllToDoLists() returns (r: ActionResult)
      requires context.Valid()
      ensures r.OkItems?
      ensures forall k :: k in context.toDoLists ==> context.toDoLists[k] in r.items
      ensures forall x :: x in r.items ==> x.id in context.toDoLists && context.toDoLists[x.id] == x
      ensures IdsAscending(r.items)
    {
      r := OkItems(context.AllRows());
    }

    /**
     * DELETE DeleteToDoList/{id}, as written: an existing row is removed
     * whoever owns it. For a missing id `FirstAsync` throws before the null
     * check is reached, so this action never answers NotFound.
     */
    method DeleteToDoList(id: int) returns (r: ActionResult)
      requires context.Valid()
      modifies context
      ensures context.Valid() && context.nextId == old(context.nextId)
      ensures r != NotFound
      ensures id in old(context.toDoLists) ==>
        r == NoContent && context.toDoLists == old(context.toDoLists) - {id}
      ensures id !in old(context.toDoLists) ==>
        r == Throws(SequenceContainsNoElements) && context.toDoLists == old(context.toDoLists)
    {
      if id !in context.toDoLists {
        return Throws(SequenceContainsNoElements);
      }
      context.toDoLists := context.toDoLists - {id};
      r := NoContent;
    }

    /**
     * DELETE DeleteToDoList/{id} with the lookup that yields null for a
     * missing id (`FirstOrDefaultAsync`), so the NotFound branch is reached.
     */
    method DeleteToDoListOrNotFound(id: int) returns (r: ActionResult)
      requires context.Valid()
      modifies context
      ensures context.Valid() && context.nextId == old(context.nextId)
      ensures id in old(context.toDoLists) ==>
        r == NoContent && context.toDoLists == old(context.toDoLists) - {id}
      ensures id !in old(context.toDoLists) ==>
        r == NotFound && context.toDoLists == old(context.toDoLists)
    {
      if id !in context.toDoLists {
        return NotFound;
      }
      context.toDoLists := context.toDoLists - {id};
      r := NoContent;
    }

    /**
     * POST CreateRole: BadRequest for a null or empty name, Conflict for a
     * name that exists; otherwise the role store's own creation decides
     * (`creationSucceeded`): the role is added and Ok, or ServerError with
     * no role added. Users are never touched.
     */
    method CreateRole(roleName: Option<string>, creationSucceeded: bool) returns (r: ActionResult)
      requires userManager.Valid()
      modifies userManager
      ensures userManager.Valid() && userManager.users == old(userManager.users)
      ensures IsNullOrEmpty(roleName) ==> r == BadRequest && userManager.roles == old(userManager.roles)
      ensures !IsNullOrEmpty(roleName) && roleName.value in old(userManager.roles) ==>
        r == Conflict && userManager.roles == old(userManager.roles)
      ensures !IsNullOrEmpty(roleName) && roleName.value !in old(userManager.roles) ==>
        if creationSucceeded
        then r == Ok && userManager.roles == old(userManager.roles) + {roleName.value}
        else r == ServerError && userManager.roles == old(userManager.roles)
    {
      if IsNullOrEmpty(roleName) {
        return BadRequest;
      }
      var name := roleName.value;
      if name in userManager.roles {
        return Conflict;
      }
      if creationSucceeded {
        userManager.roles := userManager.roles + {name};
        r := Ok;
      } else {
        r := ServerError;
      }
    }

    /**
     * POST AssignRole: NotFound for an unknown user; BadRequest, with
     * nothing changed, when the user already holds the role; otherwise the
     * role is added to that user alone and Ok. Adding a role that the role
     * store does not hold throws.
     */
    method AssignRole(userId: string, role: string) returns (r: ActionResult)
      requires userManager.Valid()
      modifies userManager
      ensures userManager.Valid() && userManager.roles == old(userManager.roles)
      ensures userId !in old(userManager.users) ==>
        r == NotFound && userManager.users == old(userManager.users)
      ensures userId in old(userManager.users) && role in old(userManager.users)[userId].roles ==>
        r == BadRequest && userManager.users == old(userManager.users)
      ensures userId in old(userManager.users) && role !in old(userManager.users)[userId].roles ==>
        if role in old(userManager.roles)
        then
          && r == Ok
          && var before := old(userManager.users)[userId];
             userManager.users == old(userManager.users)[userId := before.(roles := before.roles + {role})]
        else r == Throws(RoleNotFound) && userManager.users == old(userManager.users)
    {
      if userId !in userManager.users {
        return NotFound;
      }
      var user := userManager.users[userId];
      if role in user.roles {
        return BadRequest;
      }
      if role !in userManager.roles {
        return Throws(RoleNotFound);
      }
      userManager.users := userManager.users[userId := user.(roles := user.roles + {role})];
      r := Ok;
    }
  }
}
