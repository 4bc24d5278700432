/** The zod schemas `createSnippetSchema` and `updateSnippetSchema` as
    predicates over an incoming JSON object. String lengths are lengths of
    character sequences. */
module SnippetValidators {
  import opened Wrappers
  import opened Snippets

  /** An incoming request body, restricted to the keys the schemas know
      (plus `teamId`, which only the create schema keeps). */
  datatype Payload = Payload(
    title: Field<string>,
    code: Field<string>,
    language: Field<string>,
    description: Field<string>,
    tags: Field<seq<string>>,
    teamId: Field<int>,
    visibility: Field<string>)

  /** `visibilityEnum`: accepts exactly the three names. */
  function ParseVisibility(s: string): (r: Option<Visibility>)
    ensures r.Some? <==> s == "private" || s == "team" || s == "public"
    ensures r.Some? ==> VisibilityName(r.value) == s
  {
    if s == "private" then Some(Private)
    else if s == "team" then Some(Team)
    else if s == "public" then Some(Public)
    else None
  }

  /** Every visibility survives being written out and parsed back. */
  lemma VisibilityRoundTrip(v: Visibility)
    ensures ParseVisibility(VisibilityName(v)) == Some(v)
  {
  }

  predicate TitleOk(t: string) { 1 <= |t| <= 255 }

  predicate CodeOk(c: string) { 1 <= |c| }

  predicate LanguageOk(l: string) { 1 <= |l| <= 100 }

  predicate DescriptionOk(d: string) { |d| <= 1000 }

  predicate TagsOk(tags: seq<string>)
  {
    |tags| <= 10 && forall i :: 0 <= i < |tags| ==> |tags[i]| <= 50
  }

  /** A key that is `.optional().nullable()`: absent and null pass, a value must satisfy `ok`. */
  predicate NullableOk<T>(f: Field<T>, ok: T -> bool)
  {
    f.Present? ==> ok(f.value)
  }

  /** A key that is `.optional()` only: absent passes, null is rejected. */
  predicate OptionalOk<T>(f: Field<T>, ok: T -> bool)
  {
    f != JsonNull && (f.Present? ==> ok(f.value))
  }

  /** A key that is required: it must be present with an acceptable value. */
  predicate RequiredOk<T>(f: Field<T>, ok: T -> bool)
  {
    f.Present? && ok(f.value)
  }

  predicate VisibilityOk(s: string) { ParseVisibility(s).Some? }

  predicate TeamIdOk(t: int) { t > 0 }

  /** `createSnippetSchema.safeParse(body).success`. */
  predicate CreateValid(p: Payload)
  {
    && RequiredOk(p.title, TitleOk)
    && RequiredOk(p.code, CodeOk)
    && RequiredOk(p.language, LanguageOk)
    && NullableOk(p.description, DescriptionOk)
    && NullableOk(p.tags, TagsOk)
    && NullableOk(p.teamId, TeamIdOk)
    && RequiredOk(p.visibility, VisibilityOk)
  }

  /** `updateSnippetSchema.safeParse(body).success`. The schema has no
      `teamId` key, so whatever the body holds there is ignored. */
  predicate UpdateValid(p: Payload)
  {
    && OptionalOk(p.title, TitleOk)
    && OptionalOk(p.code, CodeOk)
    && OptionalOk(p.language, LanguageOk)
    && NullableOk(p.description, DescriptionOk)
    && NullableOk(p.tags, TagsOk)
    && OptionalOk(p.visibility, VisibilityOk)
  }

  /** The bounds both schemas put on a snippet's content, stated on a stored record. */
  predicate ContentOk(s: Snippet)
  {
    && TitleOk(s.title)
    && CodeOk(s.code)
    && LanguageOk(s.language)
    && (s.description.Some? ==> DescriptionOk(s.description.value))
    && (s.tags.Some? ==> TagsOk(s.tags.value))
  }

  /** What the create schema accepts, field by field. */
  lemma CreateValidMeans(p: Payload)
    ensures CreateValid(p) <==>
      && p.title.Present? && 1 <= |p.title.value| <= 255
      && p.code.Present? && 1 <= |p.code.value|
      && p.language.Present? && 1 <= |p.language.value| <= 100
      && (p.description.Present? ==> |p.description.value| <= 1000)
      && (p.tags.Present? ==>
            |p.tags.value| <= 10 && forall i :: 0 <= i < |p.tags.value| ==> |p.tags.value[i]| <= 50)
      && (p.teamId.Present? ==> p.teamId.value > 0)
      && p.visibility.Present?
      && p.visibility.value in {"private", "team", "public"}
  {
  }

  /** What the update schema accepts: every key optional, a present key obeys
      the create bounds, and only description and tags may be null. */
  lemma UpdateValidMeans(p: Payload)
    ensures UpdateValid(p) <==>
      && (p.title != JsonNull && (p.title.Present? ==> 1 <= |p.title.value| <= 255))
      && (p.code != JsonNull && (p.code.Present? ==> 1 <= |p.code.value|))
      && (p.language != JsonNull && (p.language.Present? ==> 1 <= |p.language.value| <= 100))
      && (p.description.Present? ==> |p.description.value| <= 1000)
      && (p.tags.Present? ==>
            |p.tags.value| <= 10 && forall i :: 0 <= i < |p.tags.value| ==> |p.tags.value[i]| <= 50)
      && (p.visibility != JsonNull &&
            (p.visibility.Present? ==> p.visibility.value in {"private", "team", "public"}))
  {
  }

  /** Every key of the update schema is optional: the empty body passes. */
  lemma EmptyUpdateValid()
    ensures UpdateValid(Payload(Absent, Absent, Absent, Absent, Absent, Absent, Absent))
  {
  }

  /** Every body the create schema accepts is also accepted by the update schema. */
  lemma CreateValidImpliesUpdateValid(p: Payload)
    requires CreateValid(p)
    ensures UpdateValid(p)
  {
  }

  /** The update schema ignores `teamId` entirely: changing it never changes the verdict. */
  lemma UpdateIgnoresTeamId(p: Payload, t: Field<int>)
    ensures UpdateValid(p) == UpdateValid(p.(teamId := t))
  {
  }
}
