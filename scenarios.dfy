/**
 * Sequences of controller calls, proved from the actions' contracts alone:
 * what a client of the API can rely on across several requests.
 */
module Scenarios {
  import opened Wrappers
  import opened Models
  import opened Queries
  import opened Results
  import ToDoListApi
  import AdminApi

  /** Create, then Get with the returned id: the caller reads back what it sent, as owner. */
  method CreateThenGet(api: ToDoListApi.ToDoListController, callerId: string, dto: ToDoListCreateDto)
    returns (created: ActionResult, got: ActionResult)
    requires api.context.Valid() && IsValidCreateDto(dto)
    requires callerId in api.userManager.users
    modifies api.context
    ensures created.Created? && got == OkItem(created.item)
    ensures got.item.title == dto.title && got.item.description == dto.description
    ensures got.item.userId == Some(callerId)
  {
    created := api.CreateToDoList(callerId, dto);
    got := api.GetToDoList(callerId, created.item.id);
  }

  /** Another user can neither read nor delete a freshly created row. */
  method CreateThenForeignAccess(
    api: ToDoListApi.ToDoListController, ownerId: string, otherId: string, dto: ToDoListCreateDto)
    returns (created: ActionResult, got: ActionResult, deleted: ActionResult)
    requires api.context.Valid() && IsValidCreateDto(dto) && ownerId != otherId
    requires ownerId in api.userManager.users
    modifies api.context
    ensures created.Created? && got == NotFound && deleted == NotFound
    ensures created.item.id in api.context.toDoLists && api.context.toDoLists[created.item.id] == created.item
  {
    created := api.CreateToDoList(ownerId, dto);
    got := api.GetToDoList(otherId, created.item.id);
    deleted := api.DeleteToDoList(otherId, created.item.id);
  }

  /** What another user creates never changes the caller's listing. */
  method ForeignCreateLeavesListingUnchanged(
    api: ToDoListApi.ToDoListController, callerId: string, otherId: string, dto: ToDoListCreateDto)
    returns (before: ActionResult, after: ActionResult)
    requires api.context.Valid() && callerId != otherId
    modifies api.context
    ensures before == after
  {
    before := api.GetToDoLists(callerId);
    ghost var m0, n0 := api.context.toDoLists, api.context.nextId;
    assert before.items == OwnedBy(TableRows(m0, 1, n0), callerId);
    var created := api.CreateToDoList(otherId, dto);
    after := api.GetToDoLists(callerId);
    ghost var m1, n1 := api.context.toDoLists, api.context.nextId;
    assert after.items == OwnedBy(TableRows(m1, 1, n1), callerId);
    if created.Created? {
      assert created.item.id in m1 && m1[created.item.id].id == created.item.id;
      ForeignInsertKeepsOwnedListing(m0, n0, created.item, n1, callerId);
    } else {
      OwnedListingDependsOnlyOnOwnEntries(m0, n0, m1, n1, callerId);
    }
  }

  /**
   * What another user deletes never changes the caller's listing (updates
   * are another matter: see UpdateTakesOverForeignItem).
   */
  method ForeignDeleteLeavesListingUnchanged(
    api: ToDoListApi.ToDoListController, callerId: string, otherId: string, id: int)
    returns (before: ActionResult, after: ActionResult)
    requires api.context.Valid() && callerId != otherId
    modifies api.context
    ensures before == after
  {
    before := api.GetToDoLists(callerId);
    ghost var m0, n0 := api.context.toDoLists, api.context.nextId;
    assert before.items == OwnedBy(TableRows(m0, 1, n0), callerId);
    var deleted := api.DeleteToDoList(otherId, id);
    after := api.GetToDoLists(callerId);
    assert after.items == OwnedBy(TableRows(api.context.toDoLists, 1, n0), callerId);
    if deleted == NoContent {
      ForeignRemovalKeepsOwnedListing(m0, n0, id, callerId);
    }
  }

  /**
   * The update action as written lets a caller take over a row it does not
   * own: the update succeeds, the caller becomes the owner, and the row
   * vanishes from the previous owner's listing.
   */
  method UpdateTakesOverForeignItem(
    api: ToDoListApi.ToDoListController, victimId: string, intruderId: string, body: ToDoList)
    returns (r: ActionResult, victimListing: ActionResult)
    requires api.context.Valid()
    requires IsValidToDoList(body) && body.userId == Some(intruderId) && victimId != intruderId
    requires OwnsEntry(api.context.toDoLists, body.id, victimId)
    requires intruderId in api.userManager.users
    modifies api.context
    ensures old(api.context.toDoLists)[body.id].userId == Some(victimId)
    ensures r == NoContent && OwnsEntry(api.context.toDoLists, body.id, intruderId)
    ensures victimListing.OkItems? && forall x :: x in victimListing.items ==> x.id != body.id
  {
    r := api.UpdateToDoList(intruderId, body.id, body);
    victimListing := api.GetToDoLists(victimId);
  }

  /** The owner-checked update refuses the same request and leaves the row with its owner. */
  method UpdateKeepingOwnerRefusesTakeover(
    api: ToDoListApi.ToDoListController, victimId: string, intruderId: string, body: ToDoList)
    returns (r: ActionResult)
    requires api.context.Valid()
    requires IsValidToDoList(body) && body.userId == Some(intruderId) && victimId != intruderId
    requires OwnsEntry(api.context.toDoLists, body.id, victimId)
    modifies api.context
    ensures r == NotFound && api.context.toDoLists == old(api.context.toDoLists)
  {
    r := api.UpdateToDoListKeepingOwner(intruderId, body.id, body);
  }

  /** Creating the same role twice: the second call is a Conflict whenever the first went through. */
  method CreateRoleTwice(admin: AdminApi.AdminToDoListController, name: string, creationSucceeded: bool)
    returns (first: ActionResult, second: ActionResult)
    requires admin.userManager.Valid() && name != ""
    modifies admin.userManager
    ensures name !in old(admin.userManager.roles) && creationSucceeded ==> first == Ok
    ensures first != ServerError ==> second == Conflict
    ensures name in admin.userManager.roles <==> first != ServerError
  {
    first := admin.CreateRole(Some(name), creationSucceeded);
    second := admin.CreateRole(Some(name), creationSucceeded);
  }

  /** Assigning the same role twice: the second call is a BadRequest and adds nothing. */
  method AssignRoleTwice(admin: AdminApi.AdminToDoListController, userId: string, role: string)
    returns (first: ActionResult, second: ActionResult)
    requires admin.userManager.Valid()
    requires userId in admin.userManager.users && role in admin.userManager.roles
    modifies admin.userManager
    ensures role !in old(admin.userManager.users)[userId].roles ==> first == Ok
    ensures second == BadRequest
    ensures userId in admin.userManager.users
    ensures admin.userManager.users[userId].roles == old(admin.userManager.users)[userId].roles + {role}
  {
    first := admin.AssignRole(userId, role);
    second := admin.AssignRole(userId, role);
  }
}
