/** The write side of `lib/db/queries.ts` and the search entry point: a
    snippet table that `createSnippet`, `updateSnippet` and `deleteSnippet`
    change in place. The embedding model is a parameter `embed` from a text
    to a vector, or to `None` when `generateEmbedding` throws; the clock is a
    parameter `now`. */
module Store {
  import opened Wrappers
  import opened Snippets
  import opened EmbeddingText
  import opened Vectors
  import opened Ranking
  import opened Queries

  /** `generateEmbedding`: a vector, or `None` when it throws. */
  type Embedder = string -> Option<seq<real>>

  /** The embedding column written for a generator outcome: the vector (which
      `JSON.stringify` writes and `JSON.parse` reads back), or null when the
      generator threw. */
  function EmbeddingOf(outcome: Option<seq<real>>): Embedding
  {
    match outcome
    case Some(v) => Vector(v)
    case None => Null
  }

  /** `snippetToTextForEmbedding` on a record. */
  function TextOf(s: Snippet): string
  {
    Render(s.title, s.language, s.description, s.tags, s.code)
  }

  /** The record `insert ... returning(snippetSelection)` gives back: the
      payload's fields, the serial id, and `defaultNow()` in both timestamps. */
  function Inserted(data: NewSnippet, id: int, now: int): (s: Snippet)
  {
    Snippet(id, data.title, data.code, data.language, data.description, data.tags,
            data.userId, data.teamId, data.visibility, now, now)
  }

  /** A nullable key of the payload spread over a column: absent keeps the
      column, `null` clears it, a value replaces it. */
  function Spread<T>(f: Field<T>, current: Option<T>): Option<T>
  {
    match f
    case Absent => current
    case JsonNull => None
    case Present(v) => Some(v)
  }

  /** `{ ...existingSnippet, ...data, updatedAt: now }`. */
  function Merge(s: Snippet, data: Partial, now: int): (m: Snippet)
    ensures m.id == s.id && m.userId == s.userId && m.createdAt == s.createdAt
    ensures m.updatedAt == now
  {
    Snippet(
      s.id,
      if data.title.Some? then data.title.value else s.title,
      if data.code.Some? then data.code.value else s.code,
      if data.language.Some? then data.language.value else s.language,
      Spread(data.description, s.description),
      Spread(data.tags, s.tags),
      s.userId,
      Spread(data.teamId, s.teamId),
      if data.visibility.Some? then data.visibility.value else s.visibility,
      s.createdAt,
      now)
  }

  /** `'k' in data && data.k !== existing.k` for a required column. */
  predicate Differs<T(==)>(f: Option<T>, current: T)
  {
    f.Some? && f.value != current
  }

  /** The same for a nullable column; `null` differs from a value only. */
  predicate FieldDiffers<T(==)>(f: Field<T>, current: Option<T>)
  {
    Spread(f, current) != current
  }

  /** `relevantFieldsChanged`: one of the five content fields is in the
      payload with a value other than the stored one (tags compared as whole
      arrays, as their JSON texts are). */
  predicate RelevantFieldsChanged(s: Snippet, data: Partial)
  {
    || Differs(data.title, s.title)
    || FieldDiffers(data.description, s.description)
    || Differs(data.code, s.code)
    || Differs(data.language, s.language)
    || FieldDiffers(data.tags, s.tags)
  }

  /** The row `updateSnippet` writes: the merged record, and a regenerated
      embedding of the merged record's text when a content field changed and
      generation succeeds; otherwise the embedding as it was. */
  function UpdatedRow(row: Row, data: Partial, embed: Embedder, now: int): Row
  {
    var merged := Merge(row.snippet, data, now);
    var embedding :=
      if RelevantFieldsChanged(row.snippet, data) && embed(TextOf(merged)).Some?
      then Vector(embed(TextOf(merged)).value)
      else row.embedding;
    Row(merged, embedding)
  }

  class SnippetStore {
    /** The `snippets` table. */
    var rows: Table
    /** The `team_members` table, as `(teamId, userId)` pairs. */
    var members: set<(int, int)>
    /** The next value of the serial `id` column. */
    var nextId: int

    /** Rows are stored under their own ids, all below the next serial value. */
    ghost predicate Valid()
      reads this
    {
      && 0 < nextId
      && Keyed(rows)
      && (forall k :: k in rows ==> 0 < k < nextId)
    }

    /** An empty table beside the given team memberships. */
    constructor(memberships: set<(int, int)>)
      ensures Valid()
      ensures rows == map[] && members == memberships
    {
      rows := map[];
      members := memberships;
      nextId := 1;
    }

    /** `createSnippet(data)`: inserts one new record carrying every field of
        the payload under a fresh id. The embedding is that of the record's
        text, or null when the generator throws: the insert happens either
        way. */
    method CreateSnippet(data: NewSnippet, embed: Embedder, now: int) returns (s: Snippet)
      requires Valid()
      modifies this
      ensures Valid()
      ensures s == Inserted(data, old(nextId), now) && s.id !in old(rows)
      ensures rows == old(rows)[s.id := Row(s, EmbeddingOf(embed(TextOf(s))))]
      ensures members == old(members)
    {
      var id := nextId;
      s := Inserted(data, id, now);
      var embedding := Null;
      var outcome := embed(TextOf(s));
      if outcome.Some? {
        embedding := Vector(outcome.value);
      }
      rows := rows[id := Row(s, embedding)];
      nextId := nextId + 1;
    }

    /** `updateSnippet(snippetId, data, userId)`: null, with nothing changed,
        when there is no such record or the caller does not own it; otherwise
        the merged record, written back with the embedding `UpdatedRow`
        describes, every other record untouched. */
    method UpdateSnippet(snippetId: int, data: Partial, userId: int, embed: Embedder, now: int)
      returns (r: Option<Snippet>)
      requires Valid()
      modifies this
      ensures Valid()
      ensures r.None? <==> old(snippetId !in rows || rows[snippetId].snippet.userId != userId)
      ensures r.None? ==> rows == old(rows)
      ensures r.Some? ==> r == Some(Merge(old(rows[snippetId].snippet), data, now))
      ensures r.Some? ==> rows == old(rows)[snippetId := UpdatedRow(old(rows[snippetId]), data, embed, now)]
      ensures members == old(members) && nextId == old(nextId)
    {
      if snippetId !in rows {
        return None;
      }
      var existing := rows[snippetId];
      if existing.snippet.userId != userId {
        return None;
      }
      var updated := Merge(existing.snippet, data, now);
      var embedding := existing.embedding;
      if RelevantFieldsChanged(existing.snippet, data) {
        var outcome := embed(TextOf(updated));
        if outcome.Some? {
          embedding := Vector(outcome.value);
        } else {
          embedding := existing.embedding;
        }
      }
      rows := rows[snippetId := Row(updated, embedding)];
      r := Some(updated);
    }

    /** `deleteSnippet(snippetId, userId)`: removes exactly that record when
        it exists and the caller owns it; otherwise reports failure and
        changes nothing. */
    method DeleteSnippet(snippetId: int, userId: int) returns (success: bool)
      requires Valid()
      modifies this
      ensures Valid()
      ensures success <==> old(snippetId in rows && rows[snippetId].snippet.userId == userId)
      ensures success ==> rows == old(rows) - {snippetId}
      ensures !success ==> rows == old(rows)
      ensures members == old(members) && nextId == old(nextId)
    {
      if snippetId !in rows {
        return false;
      }
      if rows[snippetId].snippet.userId != userId {
        return false;
      }
      rows := rows - {snippetId};
      success := true;
    }

    /** `searchSnippetsByEmbedding(queryVector, userId, teamId, limit)`: the
        candidate query, one cosine similarity per candidate with a vector,
        the in-place sort, the slice and the stripping of the score. `scan`
        is the order in which the database returns the candidates. */
    method SearchSnippetsByEmbedding(queryVector: seq<real>, userId: int, teamId: Option<int>,
                                     limit: Option<int>, scan: seq<int>, sqrt: SqrtFn)
      returns (result: seq<Snippet>)
      ensures result == SearchSnippets(rows, scan, queryVector, userId, teamId, limit, sqrt)
    {
      var candidates := Candidates(rows, scan, userId, teamId);
      var scored: seq<Scored> := [];
      for i := 0 to |candidates|
        invariant scored == ScoreRows(candidates[..i], queryVector, sqrt)
      {
        assert candidates[..i + 1][..i] == candidates[..i];
        match candidates[i].embedding {
          case Vector(v) =>
            var similarity := CosineSimilarity(queryVector, v, sqrt);
            scored := scored + [Scored(candidates[i].snippet, similarity)];
          case _ =>
        }
      }
      assert candidates[..|candidates|] == candidates;
      var ranked := new Scored[|scored|](i requires 0 <= i < |scored| => scored[i]);
      assert ranked[..] == scored;
      SortBySimilarity(ranked);
      var end := SliceEnd(ranked.Length, LimitOf(limit));
      result := Strip(ranked[..end]);
    }
  }

  // ---------------------------------------------------------------------
  // Properties of the operations
  // ---------------------------------------------------------------------

  /** The creator can read what they created. */
  lemma CreatorReadsCreated(rows: Table, members: set<(int, int)>, data: NewSnippet,
                            id: int, now: int, e: Embedding)
    ensures var s := Inserted(data, id, now);
            GetSnippetById(rows[id := Row(s, e)], members, id, data.userId) == Some(s)
  {
  }

  /** A merge with the empty payload only touches `updatedAt`, and merging
      the same payload twice is merging it once. */
  lemma MergeEmptyAndIdempotent(s: Snippet, data: Partial, now: int)
    ensures Merge(s, Partial(None, None, None, Absent, Absent, Absent, None), now) == s.(updatedAt := now)
    ensures Merge(Merge(s, data, now), data, now) == Merge(s, data, now)
  {
  }

  /** When no content field changes, the merged record has the same text, so
      the embedding that is kept still describes it. */
  lemma UnchangedContentSameText(s: Snippet, data: Partial, now: int)
    requires !RelevantFieldsChanged(s, data)
    ensures TextOf(Merge(s, data, now)) == TextOf(s)
  {
    var m := Merge(s, data, now);
    assert m.title == s.title && m.language == s.language && m.code == s.code;
    assert m.description == s.description && m.tags == s.tags;
  }

  /** A payload that only changes the visibility (or the team) keeps the
      embedding, whatever the generator would do. */
  lemma VisibilityOnlyKeepsEmbedding(row: Row, data: Partial, embed: Embedder, now: int)
    requires data.title.None? && data.code.None? && data.language.None?
    requires data.description.Absent? && data.tags.Absent?
    ensures UpdatedRow(row, data, embed, now).embedding == row.embedding
    ensures UpdatedRow(row, data, embed, now).snippet == Merge(row.snippet, data, now)
  {
  }

  /** The embedding changes exactly when a content field changed, the
      generator gave a vector, and that vector is not the one stored; so a
      payload that re-sends every content field unchanged keeps it. */
  lemma EmbeddingChangesOnlyOnRegeneration(row: Row, data: Partial, embed: Embedder, now: int)
    ensures var text := TextOf(Merge(row.snippet, data, now));
            (UpdatedRow(row, data, embed, now).embedding != row.embedding)
            == (RelevantFieldsChanged(row.snippet, data) && embed(text).Some?
                && Vector(embed(text).value) != row.embedding)
    ensures !RelevantFieldsChanged(row.snippet, data) ==> UpdatedRow(row, data, embed, now).embedding == row.embedding
  {
  }

  /** A failed regeneration keeps the old embedding. */
  lemma FailedRegenerationKeepsEmbedding(row: Row, data: Partial, embed: Embedder, now: int)
    requires embed(TextOf(Merge(row.snippet, data, now))).None?
    ensures UpdatedRow(row, data, embed, now).embedding == row.embedding
  {
  }

  /** New code is embedded afresh, from the merged record's text. */
  lemma ChangedCodeRegenerates(row: Row, data: Partial, embed: Embedder, now: int)
    requires data.code.Some? && data.code.value != row.snippet.code
    requires embed(TextOf(Merge(row.snippet, data, now))).Some?
    ensures UpdatedRow(row, data, embed, now).embedding
         == Vector(embed(TextOf(Merge(row.snippet, data, now))).value)
  {
  }

  /** A stored vector is current when it is what the generator gives for the
      record's text. */
  ghost predicate Current(row: Row, embed: Embedder)
  {
    row.embedding.Vector? ==> embed(TextOf(row.snippet)) == Some(row.embedding.values)
  }

  /** An update keeps a current vector current unless regeneration is
      needed and fails. */
  lemma UpdateKeepsCurrent(row: Row, data: Partial, embed: Embedder, now: int)
    requires Current(row, embed)
    requires RelevantFieldsChanged(row.snippet, data) ==> embed(TextOf(Merge(row.snippet, data, now))).Some?
    ensures Current(UpdatedRow(row, data, embed, now), embed)
  {
    if !RelevantFieldsChanged(row.snippet, data) {
      UnchangedContentSameText(row.snippet, data, now);
    }
  }

  /** A payload that changes the code and leaves the other content fields
      as they are changes the text the record is embedded from. */
  lemma CodeChangeChangesText(s: Snippet, data: Partial, now: int)
    requires data.code.Some? && data.code.value != s.code
    requires !Differs(data.title, s.title) && !Differs(data.language, s.language)
    requires !FieldDiffers(data.description, s.description) && !FieldDiffers(data.tags, s.tags)
    ensures TextOf(Merge(s, data, now)) != TextOf(s)
  {
    var m := Merge(s, data, now);
    var prefix := Render(s.title, s.language, s.description, s.tags, "");
    assert m.title == s.title && m.language == s.language;
    assert m.description == s.description && m.tags == s.tags;
    RenderCode(s.title, s.language, s.description, s.tags, s.code);
    RenderCode(s.title, s.language, s.description, s.tags, m.code);
    assert (prefix + m.code)[|prefix|..] == m.code;
    assert (prefix + s.code)[|prefix|..] == s.code;
  }

  /** When the code alone changes and regeneration fails, a vector that was
      current goes stale: it is kept, it is still the generator's vector for
      the old text, and the record's text is no longer that old text. */
  lemma FailedRegenerationLeavesStale(row: Row, data: Partial, embed: Embedder, now: int)
    requires Current(row, embed) && row.embedding.Vector?
    requires data.code.Some? && data.code.value != row.snippet.code
    requires !Differs(data.title, row.snippet.title) && !Differs(data.language, row.snippet.language)
    requires !FieldDiffers(data.description, row.snippet.description)
    requires !FieldDiffers(data.tags, row.snippet.tags)
    requires embed(TextOf(Merge(row.snippet, data, now))).None?
    ensures UpdatedRow(row, data, embed, now).embedding == row.embedding
    ensures embed(TextOf(row.snippet)) == Some(row.embedding.values)
    ensures TextOf(Merge(row.snippet, data, now)) != TextOf(row.snippet)
  {
    CodeChangeChangesText(row.snippet, data, now);
  }

  /** `updateSnippet` never clears `teamId`: a team record its owner makes
      private is still returned to team members by `getSnippetById`, but no
      longer reaches them through the search. */
  lemma TeamRecordMadePrivate(rows: Table, members: set<(int, int)>, snippetId: int,
                              data: Partial, embed: Embedder, now: int, member: int)
    requires snippetId in rows
    requires TeamIdTruthy(rows[snippetId].snippet.teamId)
    requires (rows[snippetId].snippet.teamId.value, member) in members
    requires member != rows[snippetId].snippet.userId
    requires data.visibility == Some(Private) && data.teamId.Absent?
    ensures var updated := rows[snippetId := UpdatedRow(rows[snippetId], data, embed, now)];
            GetSnippetById(updated, members, snippetId, member) == Some(updated[snippetId].snippet)
    ensures !Matches(SearchCandidates(member, rows[snippetId].snippet.teamId),
                     UpdatedRow(rows[snippetId], data, embed, now).snippet)
  {
  }

  /** After a delete, the record is gone for everybody and every other record
      reads as before. */
  lemma DeletedIsGone(rows: Table, members: set<(int, int)>, snippetId: int, other: int, userId: int)
    ensures GetSnippetById(rows - {snippetId}, members, snippetId, userId).None?
    ensures other != snippetId
        ==> GetSnippetById(rows - {snippetId}, members, other, userId)
            == GetSnippetById(rows, members, other, userId)
  {
  }
}
