# To-do API with identity: a Dafny model of its controllers

IdentityTrain2 is an ASP.NET Core web API. Each authenticated user keeps to-do
rows in a `ToDoLists` table, and an admin controller manages the rows of every
user plus the role store. This project models the decision logic of the two
controllers as a small in-memory state machine and proves what each action
does to it:

- `AppDbContext` is the `ToDoLists` table: a `map<int, ToDoList>` keyed by id,
  plus the next value of the identity column.
- `IdentityStore` stands for the identity framework's user and role managers.
  It holds a set of role names and a user table. Each user has an optional
  email and a set of roles.
- `ToDoListController` and `AdminToDoListController` have one method per
  action. Two more methods, `UpdateToDoListKeepingOwner` and
  `DeleteToDoListOrNotFound`, are the corrected variants described under
  "Findings". Every `ToDoListController` method takes the authenticated
  caller's id as a parameter. The admin actions never read the caller, so
  theirs take none. Every action returns an `ActionResult`: `Ok`, `OkItems`, `OkItem`, `Created`, `NoContent`,
  `BadRequest`, `NotFound`, `Conflict`, `ServerError`, or `Throws` for an
  exception that escapes the action.
- The `[Required]` and `[MaxLength]` annotations on `ToDoList` and
  `ToDoListCreateDto` are predicates. They use the exact `char.IsWhiteSpace`
  set and UTF-16 lengths. `[ApiController]`'s automatic model validation is
  the BadRequest branch at the start of create and update.
- `ToDoList.UserId` is a foreign key into the identity user table, through
  the `User` navigation property. Saving a new or rewritten row whose owner
  has no user record therefore throws, as `Throws(ForeignKeyViolation)`.
- The export mail body is a pure function `RenderEmailBody`. The
  `StringBuilder` loop `BuildEmailBody` is proved to produce it.

The two stores keep these invariants, and every action preserves them:
- every row is stored under its own id;
- ids lie below the identity counter;
- every row has a valid title and description and an owner;
- every role a user holds exists in the role store.

Listings (`ToListAsync`) are in ascending id order. Every ownership-scoped
action except update is proved to act only on the caller's rows. The
scenarios show that a listing depends only on the caller's own rows, whatever
other users create or delete.

Files:
- `wrappers.dfy`: the option type.
- `models.dfy`: the entity, the DTO and validation.
- `queries.dfy`: the table queries and their lemmas.
- `results.dfy`: action results.
- `data.dfy`: the two stores.
- `email.dfy`: the mail body.
- `todolist_controller.dfy`, `admin_controller.dfy`: the two controllers.
- `scenarios.dfy`: multi-request properties proved from the contracts alone.

## Model

| member | source | states |
|---|---|---|
| `Models.FromCreateDto` | IdentityTrain2/IdentityTrain2/Controllers/ToDoListController.cs:64-69 | the new row takes the server's id and the caller as owner, and copies Title and Description from the DTO; it can be stored exactly when the DTO passes validation |
| `Models.CreateDtoYieldsValidEntity` | IdentityTrain2/IdentityTrain2/Models/DTO/ToDoListCreateDTO.cs:7-12 | a DTO within the Title (required, at most 100) and Description (at most 500) limits yields a row that passes the entity's own annotations, given a non-blank caller id |
| `Models.ValidEntityIsStorable` | IdentityTrain2/IdentityTrain2/Models/ToDoList.cs:11-19 | a row passing the entity annotations (Title required and at most 100, Description at most 500, UserId required) satisfies the stored-row invariant |
| `Queries.TableRowsContains` | IdentityTrain2/IdentityTrain2/Controllers/AdminController.cs:33 | a row is listed exactly when it is stored under a key in the listed range |
| `Queries.TableRowsListsEveryEntry` | IdentityTrain2/IdentityTrain2/Controllers/AdminController.cs:33 | when all keys lie in the range, the listing contains every stored row, and every listed row is the row stored under its id |
| `Queries.TableRowsAscending` | IdentityTrain2/IdentityTrain2/Controllers/AdminController.cs:33 | the listing of a table keyed by id is in strictly ascending id order, so no row appears twice |
| `Queries.OwnedByContains` | IdentityTrain2/IdentityTrain2/Controllers/ToDoListController.cs:40 | `Where(t => t.UserId == userId)` keeps a row exactly when it is in the list and owned by the user |
| `Queries.OwnedByAscending` | IdentityTrain2/IdentityTrain2/Controllers/ToDoListController.cs:40 | filtering by owner keeps the ascending id order |
| `Queries.OwnedRowsDependOnlyOnOwnEntries` | IdentityTrain2/IdentityTrain2/Controllers/ToDoListController.cs:40 | over one id range, a user's filtered listing is equal for any two tables that agree on that user's rows |
| `Queries.OwnedListingDependsOnlyOnOwnEntries` | IdentityTrain2/IdentityTrain2/Controllers/ToDoListController.cs:151-153 | the same for whole tables with different identity counters: other users' rows never reach a user's listing or mail body |
| `Queries.ForeignInsertKeepsOwnedListing` | IdentityTrain2/IdentityTrain2/Controllers/ToDoListController.cs:40 | adding a row that another user owns, under a fresh id and with a larger identity counter, leaves a user's filtered listing unchanged |
| `Queries.ForeignRemovalKeepsOwnedListing` | IdentityTrain2/IdentityTrain2/Controllers/ToDoListController.cs:40 | removing a row the user does not own leaves that user's filtered listing unchanged |
| `Data.AppDbContext.AllRows` | IdentityTrain2/IdentityTrain2/Controllers/AdminController.cs:33 | `ToListAsync` on the table lists every stored row and nothing else, in ascending id order |
| `Data.AppDbContext.RowsOwnedBy` | IdentityTrain2/IdentityTrain2/Controllers/ToDoListController.cs:151-153 | the owner query lists every row the user owns, only such rows, each equal to the stored row, in ascending id order |
| `EmailBody.BuildEmailBody` | IdentityTrain2/IdentityTrain2/Controllers/ToDoListController.cs:155-160 | the `AppendLine` loop produces `RenderEmailBody`: the header line, then one `- {Title}:\n{Description}\n` block per row, each ended by the newline |
| `EmailBody.ItemLinesAppend` | IdentityTrain2/IdentityTrain2/Controllers/ToDoListController.cs:157-160 | the blocks of a concatenated list are the blocks of the parts, concatenated |
| `EmailBody.EmailBodyStartsWithHeader` | IdentityTrain2/IdentityTrain2/Controllers/ToDoListController.cs:155-156 | the body starts with the header line "Ваш список дел:" and the newline |
| `EmailBody.EmailBodyShowsEachItem` | IdentityTrain2/IdentityTrain2/Controllers/ToDoListController.cs:157-160 | each row's whole block appears in the body at that row's offset |
| `EmailBody.EmailBodyKeepsListOrder` | IdentityTrain2/IdentityTrain2/Controllers/ToDoListController.cs:157-160 | blocks appear in list order and do not overlap |
| `ToDoListApi.ToDoListController.GetToDoLists` | IdentityTrain2/IdentityTrain2/Controllers/ToDoListController.cs:35-41 | returns exactly the caller's stored rows in id order; the store is not modified (no modifies clause) |
| `ToDoListApi.ToDoListController.GetToDoList` | IdentityTrain2/IdentityTrain2/Controllers/ToDoListController.cs:43-57 | returns the stored row unchanged exactly when it exists and the caller owns it; otherwise NotFound, for a missing and a foreign row alike; nothing changes |
| `ToDoListApi.ToDoListController.CreateToDoList` | IdentityTrain2/IdentityTrain2/Controllers/ToDoListController.cs:59-76 | an invalid DTO gives BadRequest with nothing changed; a caller with no user record breaks the `UserId` foreign key, so the save throws with no row stored and the drawn identity value used up; otherwise exactly one row is added under a fresh id, with Title and Description copied and the caller as owner, and all other rows are untouched |
| `ToDoListApi.ToDoListController.UpdateToDoList` | IdentityTrain2/IdentityTrain2/Controllers/ToDoListController.cs:78-110 | BadRequest with nothing changed for an invalid body, a path id other than the body id, or a body owner other than the caller; NotFound with nothing changed for a missing id; a caller with no user record makes the save throw on the `UserId` foreign key, with nothing changed; otherwise the whole row is replaced by the body without checking the stored owner, so the caller then owns it; other ids unchanged |
| `ToDoListApi.ToDoListController.UpdateToDoListKeepingOwner` | IdentityTrain2/IdentityTrain2/Controllers/ToDoListController.cs:83-102 | the update with the stored owner also checked: a row the caller does not own gives NotFound, the foreign-key throw stays for a caller with no user record, and no stored row ever changes owner |
| `ToDoListApi.ToDoListController.DeleteToDoList` | IdentityTrain2/IdentityTrain2/Controllers/ToDoListController.cs:112-129 | removes exactly the caller's own row and answers NoContent; a missing or foreign row gives NotFound with nothing changed |
| `ToDoListApi.ToDoListController.SendToDoListByEmail` | IdentityTrain2/IdentityTrain2/Controllers/ToDoListController.cs:131-160 | NotFound without a user record, BadRequest for a null or empty email, in both cases before any body is built; otherwise the body is the rendering of the caller's rows, and the transport outcome picks Ok or ServerError |
| `AdminApi.AdminToDoListController.GetAllToDoLists` | IdentityTrain2/IdentityTrain2/Controllers/AdminController.cs:28-34 | returns every stored row whatever its owner, and nothing else, in id order; the store is not modified |
| `AdminApi.AdminToDoListController.DeleteToDoList` | IdentityTrain2/IdentityTrain2/Controllers/AdminController.cs:36-53 | an existing row is removed with no ownership check and NoContent; a missing id throws from `FirstAsync` with the store unchanged; NotFound is never returned |
| `AdminApi.AdminToDoListController.DeleteToDoListOrNotFound` | IdentityTrain2/IdentityTrain2/Controllers/AdminController.cs:41-46 | with a lookup that yields null for a missing id, a missing id gives NotFound with the store unchanged |
| `AdminApi.AdminToDoListController.CreateRole` | IdentityTrain2/IdentityTrain2/Controllers/AdminController.cs:55-78 | null or empty name gives BadRequest; an existing name gives Conflict; otherwise the role is added with Ok, or ServerError with no role added when the role store's creation fails; the role set changes only on Ok and users never change |
| `AdminApi.AdminToDoListController.AssignRole` | IdentityTrain2/IdentityTrain2/Controllers/AdminController.cs:80-99 | unknown user gives NotFound; a role the user already holds gives BadRequest; otherwise the role is added to that user only and Ok (the role must exist in the store); nothing else changes |
| `Scenarios.CreateThenGet` | IdentityTrain2/IdentityTrain2/Controllers/ToDoListController.cs:59-76 | for a caller with a user record, after a create, a get with the returned id gives back the row with the sent Title and Description and the caller as owner |
| `Scenarios.CreateThenForeignAccess` | IdentityTrain2/IdentityTrain2/Controllers/ToDoListController.cs:112-129 | once an owner with a user record has created a row, another user's get and delete of it both give NotFound, and the row stays |
| `Scenarios.ForeignCreateLeavesListingUnchanged` | IdentityTrain2/IdentityTrain2/Controllers/ToDoListController.cs:59-76 | another user's create leaves the caller's listing exactly as it was |
| `Scenarios.ForeignDeleteLeavesListingUnchanged` | IdentityTrain2/IdentityTrain2/Controllers/ToDoListController.cs:112-129 | another user's delete leaves the caller's listing exactly as it was |
| `Scenarios.UpdateTakesOverForeignItem` | IdentityTrain2/IdentityTrain2/Controllers/ToDoListController.cs:83-89 | a valid update by a caller with a user record, naming another user's row and the caller as owner, succeeds; the caller becomes the owner and the row leaves the victim's listing |
| `Scenarios.UpdateKeepingOwnerRefusesTakeover` | IdentityTrain2/IdentityTrain2/Controllers/ToDoListController.cs:83-89 | the owner-checked update answers the same request with NotFound and changes nothing |
| `Scenarios.CreateRoleTwice` | IdentityTrain2/IdentityTrain2/Controllers/AdminController.cs:63-72 | creating a new role twice gives Ok then Conflict; whenever the first call did not fail, the second is a Conflict |
| `Scenarios.AssignRoleTwice` | IdentityTrain2/IdentityTrain2/Controllers/AdminController.cs:90-98 | assigning an existing role twice gives Ok (when the user lacked it) then BadRequest, and the user ends with the role exactly once |

## Left out

- SMTP sending and message construction (`MimeMessage`, the `SmtpClient` exchange) are network I/O. The model stops at the body text. The exchange's outcome is the `transportSucceeded` parameter, and the response texts of all actions are not modelled.
- Logging has no observable effect and is left out.
- The host wiring, password policy and token lifetime in `Program.cs` and the EF Core context class are configuration, not logic.
- Claims extraction is left out: the caller id is a parameter. A missing `NameIdentifier` claim is not modelled, because the `[Authorize]` gate admits only authenticated users.
- The admin-role gate `[Authorize(Roles = "admin")]` is enforced by the framework before the admin actions run and is not modelled.
- EF Core change tracking, async saving and real concurrency are not modelled. Requests run one at a time, so the zero-rows-affected path of update means that the id is absent (NotFound). The rethrow for a row that still exists arises only from a race, and the model never produces it.
- `AppDbContext.AllRows`: PostgreSQL returns rows without `ORDER BY` in an unspecified order. The model fixes ascending id order. Identity values are drawn one after another. The only gap the model produces is the value drawn by a create whose save throws.
- `AdminApi.AdminToDoListController.CreateRole`: role names are compared as given, without the identity framework's normalisation. "Admin" and "admin" are two roles here. The outcome of the role store's own creation is the `creationSucceeded` parameter.
- `AdminApi.AdminToDoListController.AssignRole`: the result of `AddToRoleAsync` is ignored by the source; the model assumes the addition succeeds. It does model the identity store's refusal to add a role that does not exist, as `Throws(RoleNotFound)`. The `AssignRoleDTO` record is not part of this model. Its two fields are the parameters.
- Nullable-reference annotations may make non-annotated properties implicitly required, depending on project settings. This covers `Description` and the `User` navigation property. The project file is not part of this model. Only the explicit `[Required]`/`[MaxLength]` attributes are modelled. Model validation of the `User` navigation property is left out; the foreign key it declares is modelled, as the throw on saving a row whose owner has no user record.
- File upload and download are not part of this model.

## Findings

| source | as written | input that shows it | evidently intended | confidence | as-written member | corrected member |
|---|---|---|---|---|---|---|
| IdentityTrain2/IdentityTrain2/Controllers/ToDoListController.cs:83-89 | update checks the body's owner against the caller, but never the owner of the stored row, then overwrites the whole row | row 7 owned by user A; user B sends PUT /ToDoList/7 with body `{Id: 7, UserId: B, Title: "x"}` | a caller may update only its own rows; the owner of a row never changes | high (not executed) | `Scenarios.UpdateTakesOverForeignItem` | `ToDoListApi.ToDoListController.UpdateToDoListKeepingOwner` |
| IdentityTrain2/IdentityTrain2/Controllers/AdminController.cs:41-46 | `FirstAsync` throws on an empty query, so the null check after it is dead and a missing id yields a 500 | DELETE DeleteToDoList/42 on a table without id 42 | a missing id answers NotFound | high (not executed) | `AdminApi.AdminToDoListController.DeleteToDoList` | `AdminApi.AdminToDoListController.DeleteToDoListOrNotFound` |
