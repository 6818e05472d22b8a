/** What a controller action hands back to the HTTP pipeline. */
module Results {
  import opened Models

  /** Exceptions that escape an action and become a 500 response. */
  datatype Failure =
    | SequenceContainsNoElements  // `FirstAsync` on an empty query
    | RoleNotFound                // adding a user to a role the role store does not hold
    | ForeignKeyViolation         // saving a row whose UserId names no user (`DbUpdateException`)

  datatype ActionResult =
    | Ok                              // 200 without a modelled body
    | OkItems(items: seq<ToDoList>)   // 200 with a list of rows
    | OkItem(item: ToDoList)          // 200 with one row
    | Created(item: ToDoList)         // 201 with the new row
    | NoContent                       // 204
    | BadRequest                      // 400
    | NotFound                        // 404
    | Conflict                        // 409
    | ServerError                     // 500 returned by the action itself
    | Throws(failure: Failure)        // an exception thrown out of the action
}
