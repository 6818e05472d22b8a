/**
 * The per-user to-do controller. Every action is scoped to the
 * authenticated caller, whose id is passed in as `callerId`.
 */
module ToDoListApi {
  import opened Wrappers
  import opened Models
  import opened Queries
  import opened Results
  import opened Data
  import opened EmailBody

  class ToDoListController {
    const context: AppDbContext
    const userManager: IdentityStore

    constructor (context: AppDbContext, userManager: IdentityStore)
      ensures this.context == context && this.userManager == userManager
    {
      this.context := context;
      this.userManager := userManager;
    }

    /** GET /ToDoList: exactly the caller's rows, in id order; nothing changes. */
    method GetToDoLists(callerId: string) returns (r: ActionResult)
      requires context.Valid()
      ensures r == OkItems(context.RowsOwnedBy(callerId))
      ensures forall k :: OwnsEntry(context.toDoLists, k, callerId) ==> context.toDoLists[k] in r.items
      ensures forall x :: x in r.items ==>
        x.userId == Some(callerId) && x.id in context.toDoLists && context.toDoLists[x.id] == x
      ensures IdsAscending(r.items)
    {
      r := OkItems(context.RowsOwnedBy(callerId));
    }

    /**
     * GET /ToDoList/{id}: the stored row when the caller owns it; a missing
     * row and another user's row both give NotFound. Nothing changes.
     */
    method GetToDoList(callerId: string, id: int) returns (r: ActionResult)
      ensures r.OkItem? || r == NotFound
      ensures r.OkItem? <==> OwnsEntry(context.toDoLists, id, callerId)
      ensures r.OkItem? ==> r.item == context.toDoLists[id] && r.item.userId == Some(callerId)
    {
      if id !in context.toDoLists || context.toDoLists[id].userId != Some(callerId) {
        r := NotFound;
      } else {
        r := OkItem(context.toDoLists[id]);
      }
    }

    /**
     * POST /ToDoList: a body that fails validation is answered with
     * BadRequest before the action runs. `UserId` is a foreign key into the
     * user table, so when the caller has no user record the insert is
     * refused and `SaveChangesAsync` throws, with nothing stored (the
     * identity value drawn for the row stays used, as a PostgreSQL sequence
     * value is never handed back). Otherwise
     * exactly one row is added, under a fresh id, with Title and Description
     * from the body and the caller as owner; every other row is untouched.
     */
    method CreateToDoList(callerId: string, dto: ToDoListCreateDto) returns (r: ActionResult)
      requires context.Valid()
      modifies context
      ensures context.Valid() && context.nextId >= old(context.nextId)
      ensures !IsValidCreateDto(dto) ==>
        r == BadRequest && context.toDoLists == old(context.toDoLists) && context.nextId == old(context.nextId)
      ensures IsValidCreateDto(dto) && callerId !in userManager.users ==>
        r == Throws(ForeignKeyViolation) && context.toDoLists == old(context.toDoLists)
        && context.nextId == old(context.nextId) + 1
      ensures IsValidCreateDto(dto) && callerId in userManager.users ==>
        && r.Created?
        && r.item.id !in old(context.toDoLists)
        && r.item.title == dto.title
        && r.item.description == dto.description
        && r.item.userId == Some(callerId)
        && context.toDoLists == old(context.toDoLists)[r.item.id := r.item]
    {
      if !IsValidCreateDto(dto) {
        r := BadRequest;
        return;
      }
      if callerId !in userManager.users {
        context.nextId := context.nextId + 1;
        r := Throws(ForeignKeyViolation);
        return;
      }
      var item := FromCreateDto(dto, context.nextId, callerId);
      context.toDoLists := context.toDoLists[item.id := item];
      context.nextId := context.nextId + 1;
      r := Created(item);
    }

    /**
     * PUT /ToDoList/{id}, as written. BadRequest, with nothing changed, when
     * the body fails validation, names another id or names another owner.
     * Otherwise a missing row gives NotFound (the zero-rows-affected path).
     * An existing row is rewritten with the caller as `UserId`, a foreign key
     * into the user table: a caller with no user record makes the save throw
     * with nothing changed, and otherwise the row is replaced by the body,
     * whoever owned it before, so afterwards the caller owns it.
     */
    method UpdateToDoList(callerId: string, id: int, body: ToDoList) returns (r: ActionResult)
      requires context.Valid()
      modifies context
      ensures context.Valid() && context.nextId == old(context.nextId)
      ensures r == BadRequest || r == NotFound || r == NoContent || r == Throws(ForeignKeyViolation)
      ensures (!IsValidToDoList(body) || id != body.id || body.userId != Some(callerId)) ==>
        r == BadRequest && context.toDoLists == old(context.toDoLists)
      ensures (IsValidToDoList(body) && id == body.id && body.userId == Some(callerId) && id !in old(context.toDoLists)) ==>
        r == NotFound && context.toDoLists == old(context.toDoLists)
      ensures (IsValidToDoList(body) && id == body.id && body.userId == Some(callerId) && id in old(context.toDoLists)) ==>
        if callerId in userManager.users
        then r == NoContent && context.toDoLists == old(context.toDoLists)[id := body]
        else r == Throws(ForeignKeyViolation) && context.toDoLists == old(context.toDoLists)
      ensures r == NoContent ==> OwnsEntry(context.toDoLists, id, callerId)
    {
      if !IsValidToDoList(body) {
        r := BadRequest;
        return;
      }
      if id != body.id || body.userId != Some(callerId) {
        r := BadRequest;
        return;
      }
      if id !in context.toDoLists {
        r := NotFound;
        return;
      }
      if callerId !in userManager.users {
        r := Throws(ForeignKeyViolation);
        return;
      }
      context.toDoLists := context.toDoLists[id := body];
      r := NoContent;
    }

    /**
     * PUT /ToDoList/{id} with the stored row's owner checked as well: a row
     * the caller does not own is answered with NotFound, so no update ever
     * changes the owner of a stored row. The save still throws when the
     * caller has no user record.
     */
    method UpdateToDoListKeepingOwner(callerId: string, id: int, body: ToDoList) returns (r: ActionResult)
      requires context.Valid()
      modifies context
      ensures context.Valid() && context.nextId == old(context.nextId)
      ensures context.toDoLists.Keys == old(context.toDoLists.Keys)
      ensures forall k :: k in old(context.toDoLists) ==>
        context.toDoLists[k].userId == old(context.toDoLists)[k].userId
      ensures (!IsValidToDoList(body) || id != body.id || body.userId != Some(callerId)) ==>
        r == BadRequest && context.toDoLists == old(context.toDoLists)
      ensures (IsValidToDoList(body) && id == body.id && body.userId == Some(callerId)) ==>
        if !OwnsEntry(old(context.toDoLists), id, callerId)
        then r == NotFound && context.toDoLists == old(context.toDoLists)
        else if callerId in userManager.users
        then r == NoContent && context.toDoLists == old(context.toDoLists)[id := body]
        else r == Throws(ForeignKeyViolation) && context.toDoLists == old(context.toDoLists)
    {
      if !IsValidToDoList(body) || id != body.id || body.userId != Some(callerId) {
        r := BadRequest;
        return;
      }
      if id !in context.toDoLists || context.toDoLists[id].userId != Some(callerId) {
        r := NotFound;
        return;
      }
      if callerId !in userManager.users {
        r := Throws(ForeignKeyViolation);
        return;
      }
      context.toDoLists := context.toDoLists[id := body];
      r := NoContent;
    }

    /**
     * DELETE /ToDoList/{id}: removes exactly the caller's own row; a missing
     * row and another user's row both give NotFound with nothing changed.
     */
    method DeleteToDoList(callerId: string, id: int) returns (r: ActionResult)
      requires context.Valid()
      modifies context
      ensures context.Valid() && context.nextId == old(context.nextId)
      ensures OwnsEntry(old(context.toDoLists), id, callerId) ==>
        r == NoContent && context.toDoLists == old(context.toDoLists) - {id}
      ensures !OwnsEntry(old(context.toDoLists), id, callerId) ==>
        r == NotFound && context.toDoLists == old(context.toDoLists)
    {
      if id !in context.toDoLists || context.toDoLists[id].userId != Some(callerId) {
        r := NotFound;
        return;
      }
      context.toDoLists := context.toDoLists - {id};
      r := NoContent;
    }

    /**
     * POST /ToDoList/send-email, up to the hand-over to the mail relay.
     * NotFound when the caller has no user record, BadRequest when it has no
     * email; in both cases no body is built. Otherwise `body` is the text
     * the message carries, and `transportSucceeded` (the outcome of the SMTP
     * exchange) decides between Ok and ServerError.
     */
    method SendToDoListByEmail(callerId: string, newline: string, transportSucceeded: bool)
      returns (r: ActionResult, body: Option<string>)
      requires context.Valid()
      ensures callerId !in userManager.users ==> r == NotFound && body == None
      ensures callerId in userManager.users && IsNullOrEmpty(userManager.users[callerId].email) ==>
        r == BadRequest && body == None
      ensures callerId in userManager.users && !IsNullOrEmpty(userManager.users[callerId].email) ==>
        && body == Some(RenderEmailBody(context.RowsOwnedBy(callerId), newline))
        && r == (if transportSucceeded then Ok else ServerError)
    {
      if callerId !in userManager.users {
        return NotFound, None;
      }
      if IsNullOrEmpty(userManager.users[callerId].email) {
        return BadRequest, None;
      }
      var rows := context.RowsOwnedBy(callerId);
      var text := BuildEmailBody(rows, newline);
      body := Some(text);
      r := if transportSucceeded then Ok else ServerError;
    }
  }
}
