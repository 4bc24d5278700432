/** How the snippet routes turn a validated request body into the argument
    of `createSnippet` (POST) and of `updateSnippet` (PUT), and what that
    means for the records in the table: the content bounds of the schemas
    hold for every record written through the routes, and the team id a
    record was created with survives every update. */
module Routes {
  import opened Wrappers
  import opened Snippets
  import opened SnippetValidators
  import opened Store

  /** A record's team id is set exactly when it is shared with its team. */
  predicate SharingConsistent(visibility: Visibility, teamId: Option<int>)
  {
    visibility == Team <==> TeamIdTruthy(teamId)
  }

  /** The POST handler: a body the create schema rejects, or one asking for
      `team` visibility without a team id, gets no insert. Otherwise an empty
      description is dropped, missing tags become `[]` and the team id is kept
      for `team` visibility only. */
  function PostSnippet(p: Payload, userId: int): (r: Option<NewSnippet>)
    ensures r.Some? ==> CreateValid(p)
    ensures r.Some? ==> SharingConsistent(r.value.visibility, r.value.teamId)
    ensures r.Some? ==> r.value.userId == userId
  {
    if !CreateValid(p) then None
    else
      var visibility := ParseVisibility(p.visibility.value).value;
      var hasTeam := p.teamId.Present? && p.teamId.value != 0;
      if visibility == Team && !hasTeam then None
      else
        Some(NewSnippet(
          p.title.value,
          p.code.value,
          p.language.value,
          if p.description.Present? && p.description.value != "" then Some(p.description.value) else None,
          if p.tags.Present? then Some(p.tags.value) else Some([]),
          userId,
          if visibility == Team then Some(p.teamId.value) else None,
          visibility))
  }

  /** A valid body is refused by POST only for `team` visibility without a
      team id. */
  lemma PostRefusesOnlyTeamWithoutId(p: Payload, userId: int)
    requires CreateValid(p)
    ensures PostSnippet(p, userId).None?
        <==> p.visibility.value == "team" && (p.teamId.Absent? || p.teamId.JsonNull?)
  {
  }

  /** The PUT handler: a body the update schema rejects, or one with none of
      its keys, gets no update. Otherwise each key present in the body is
      copied (null tags as `[]`); `teamId` is never copied. */
  function PutSnippet(p: Payload): (r: Option<Partial>)
    ensures r.Some? ==> UpdateValid(p) && r.value.teamId.Absent?
  {
    if !UpdateValid(p) then None
    else if p.title.Absent? && p.code.Absent? && p.language.Absent? && p.description.Absent?
            && p.tags.Absent? && p.visibility.Absent? then None
    else
      Some(Partial(
        if p.title.Present? then Some(p.title.value) else None,
        if p.code.Present? then Some(p.code.value) else None,
        if p.language.Present? then Some(p.language.value) else None,
        p.description,
        match p.tags
        case Absent => Absent
        case JsonNull => Present([])
        case Present(t) => Present(t),
        Absent,
        if p.visibility.Present? then ParseVisibility(p.visibility.value) else None))
  }

  /** PUT passes a body on exactly when the schema accepts it and it holds at
      least one of the schema's keys (null counts as present). */
  lemma PutAccepts(p: Payload)
    ensures PutSnippet(p).Some?
        <==> UpdateValid(p)
             && (|| !p.title.Absent? || !p.code.Absent? || !p.language.Absent?
                 || !p.description.Absent? || !p.tags.Absent? || !p.visibility.Absent?)
  {
  }

  /** Every record inserted through POST satisfies the schema's bounds. */
  lemma PostedContentOk(p: Payload, userId: int, id: int, now: int)
    requires PostSnippet(p, userId).Some?
    ensures ContentOk(Inserted(PostSnippet(p, userId).value, id, now))
  {
  }

  /** An update through PUT keeps a record within the schema's bounds. */
  lemma PutKeepsContentOk(s: Snippet, p: Payload, now: int)
    requires ContentOk(s) && PutSnippet(p).Some?
    ensures ContentOk(Merge(s, PutSnippet(p).value, now))
  {
  }

  /** No update through PUT changes a record's team id. */
  lemma PutKeepsTeam(s: Snippet, p: Payload, now: int)
    requires PutSnippet(p).Some?
    ensures Merge(s, PutSnippet(p).value, now).teamId == s.teamId
  {
  }

  /** So a team record made private through PUT keeps its team id: the
      record is no longer consistent, which is what lets team members still
      read it by id. */
  lemma PutToPrivateBreaksSharing(s: Snippet, p: Payload, now: int)
    requires s.visibility == Team && SharingConsistent(s.visibility, s.teamId)
    requires PutSnippet(p).Some? && p.visibility == Present("private")
    ensures !SharingConsistent(Merge(s, PutSnippet(p).value, now).visibility,
                               Merge(s, PutSnippet(p).value, now).teamId)
  {
  }
}
