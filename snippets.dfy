/** The data model of the snippet table: one row per snippet, with the
    embedding column kept beside the columns the queries return. */
module Snippets {
  import opened Wrappers

  /** The `visibility` column: `'private' | 'team' | 'public'`. */
  datatype Visibility = Private | Team | Public

  /** The string the enum value is written as in payloads and in the database. */
  function VisibilityName(v: Visibility): string
  {
    match v
    case Private => "private"
    case Team => "team"
    case Public => "public"
  }

  /** A key of a JSON payload: missing, present with value `null`, or present
      with a value. zod and the update query treat the three differently. */
  datatype Field<+T> = Absent | JsonNull | Present(value: T)

  /** The `embedding` column as the search reads it back. `Null` is a SQL NULL
      (or an empty string, which is just as falsy); `Malformed` is text that
      `JSON.parse` rejects, or that parses to a non-array or to an array with a
      NaN in it; `Vector` is a parsed numeric array. */
  datatype Embedding = Null | Malformed | Vector(values: seq<real>)

  /** The columns of `snippetSelection`: every column except `embedding`.
      Timestamps are instants, given as integers. */
  datatype Snippet = Snippet(
    id: int,
    title: string,
    code: string,
    language: string,
    description: Option<string>,
    tags: Option<seq<string>>,
    userId: int,
    teamId: Option<int>,
    visibility: Visibility,
    createdAt: int,
    updatedAt: int)

  /** A full row of the table: the selected columns and the embedding. */
  datatype Row = Row(snippet: Snippet, embedding: Embedding)

  /** The insert payload (`NewSnippet`) handed to `createSnippet`. */
  datatype NewSnippet = NewSnippet(
    title: string,
    code: string,
    language: string,
    description: Option<string>,
    tags: Option<seq<string>>,
    userId: int,
    teamId: Option<int>,
    visibility: Visibility)

  /** The update payload (`Partial<NewSnippet>`) handed to `updateSnippet`:
      `None`/`Absent` means the key is not in the object. Only the keys a
      caller can usefully send are modelled. */
  datatype Partial = Partial(
    title: Option<string>,
    code: Option<string>,
    language: Option<string>,
    description: Field<string>,
    tags: Field<seq<string>>,
    teamId: Field<int>,
    visibility: Option<Visibility>)

  /** JavaScript truthiness of a nullable team id: null and 0 are falsy. */
  predicate TeamIdTruthy(t: Option<int>)
  {
    t.Some? && t.value != 0
  }
}
