/**
 * The to-do entity and the create-input record, with the data-annotation
 * validation (`[Required]`, `[MaxLength]`) that ASP.NET model binding applies
 * to them before a controller action runs.
 */
module Models {
  import opened Wrappers

  /** A row of the `ToDoLists` table; nullable C# strings are options. */
  datatype ToDoList = ToDoList(
    id: int,
    title: Option<string>,
    description: Option<string>,
    userId: Option<string>)

  /** The POST body of the create action: no id and no owner. */
  datatype ToDoListCreateDto = ToDoListCreateDto(
    title: Option<string>,
    description: Option<string>)

  const TitleMaxLength: nat := 100
  const DescriptionMaxLength: nat := 500

  /** `char.IsWhiteSpace`: the Unicode separators plus U+0009..U+000D and U+0085. */
  predicate IsWhiteSpace(c: char) {
    || c == ' '
    || '\t' <= c <= '\r'
    || c == '\U{0085}'
    || c == '\U{00A0}'
    || c == '\U{1680}'
    || '\U{2000}' <= c <= '\U{200A}'
    || c == '\U{2028}'
    || c == '\U{2029}'
    || c == '\U{202F}'
    || c == '\U{205F}'
    || c == '\U{3000}'
  }

  /** `[Required]` on a string: not null, and not empty or all white space. */
  predicate Required(s: Option<string>) {
    s.Some? && exists i :: 0 <= i < |s.value| && !IsWhiteSpace(s.value[i])
  }

  /** `string.IsNullOrEmpty`. */
  predicate IsNullOrEmpty(s: Option<string>) {
    s.None? || s.value == ""
  }

  /** `string.Length` in C#: characters outside the BMP take two UTF-16 units. */
  function Utf16Length(s: string): (n: nat)
    ensures |s| <= n <= 2 * |s|
  {
    if s == [] then 0
    else (if s[0] as int > 0xFFFF then 2 else 1) + Utf16Length(s[1..])
  }

  /** `[MaxLength(n)]` on a string: null passes, otherwise at most n UTF-16 units. */
  predicate MaxLength(s: Option<string>, n: nat) {
    s.None? || Utf16Length(s.value) <= n
  }

  /** The Title and Description annotations, shared by the entity and the DTO. */
  predicate IsValidTitleAndDescription(title: Option<string>, description: Option<string>) {
    && Required(title)
    && MaxLength(title, TitleMaxLength)
    && MaxLength(description, DescriptionMaxLength)
  }

  /** The annotations on ToDoList: Title required and short, Description short, UserId required. */
  predicate IsValidToDoList(t: ToDoList) {
    IsValidTitleAndDescription(t.title, t.description) && Required(t.userId)
  }

  /** The annotations on ToDoListCreateDto. */
  predicate IsValidCreateDto(d: ToDoListCreateDto) {
    IsValidTitleAndDescription(d.title, d.description)
  }

  /**
   * What every stored row satisfies: validated Title and Description, and an
   * owner. The owner is the caller's id, which carries no annotation of its own.
   */
  predicate IsStoredRow(t: ToDoList) {
    IsValidTitleAndDescription(t.title, t.description) && t.userId.Some?
  }

  /**
   * The entity the create action builds from a DTO: Title and Description are
   * copied, the id and the owner come from the server, never from the body.
   */
  function FromCreateDto(dto: ToDoListCreateDto, id: int, callerId: string): (t: ToDoList)
    ensures t.id == id && t.userId == Some(callerId)
    ensures t.title == dto.title && t.description == dto.description
    ensures IsValidCreateDto(dto) <==> IsStoredRow(t)
  {
    ToDoList(id, dto.title, dto.description, Some(callerId))
  }

  /** A DTO that passes validation yields an entity that passes the entity's own validation. */
  lemma CreateDtoYieldsValidEntity(dto: ToDoListCreateDto, id: int, callerId: string)
    requires IsValidCreateDto(dto)
    requires Required(Some(callerId))
    ensures IsValidToDoList(FromCreateDto(dto, id, callerId))
  {
  }

  /** Every entity that passes validation can be stored. */
  lemma ValidEntityIsStorable(t: ToDoList)
    requires IsValidToDoList(t)
    ensures IsStoredRow(t)
  {
  }
}
