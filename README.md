# Snippet store and semantic search, modelled in Dafny

This project models the code-snippet store of a Next.js SaaS starter and its semantic search.

The model covers `lib/db/queries.ts`:
- creating, updating and deleting snippets, each gated on ownership;
- reading a snippet by id, with owner, team-member or public access;
- the three list queries;
- the search.

The search fetches every candidate the caller may see and scores those that have a usable stored embedding. The score is the cosine similarity with the query vector. It then sorts the candidates stably by descending score, keeps the first `limit` (10 by default), and strips the score before returning them.

The model also covers:
- the canonical text from which a snippet's embedding is generated;
- the zod payload schemas of `lib/validators/snippet-validators.ts`;
- how the POST and PUT route handlers shape a validated body into the arguments of `createSnippet` and `updateSnippet`.

Files:

- `wrappers.dfy`: the `Option` type.
- `snippets.dfy`: the table's data.
  - A `Snippet` is the columns of `snippetSelection`.
  - A `Row` is a snippet plus its embedding column.
  - An `Embedding` is null, malformed, or a vector.
  - It also holds the insert payload and the update payload.
  - A JSON key is absent, null, or present.
- `validators.dfy`: `createSnippetSchema` and `updateSnippetSchema` as predicates.
- `canonical.dfy`: `snippetToTextForEmbedding`, plus a reader that parses the text back.
- `cosine.dfy`: `cosineSimilarity` as a loop, proved against a functional definition.
- `ranking.dfy`: the stable descending sort.
  - The specification is a functional insertion sort.
  - The in-place array sort is proved to give exactly that result.
  - A uniqueness lemma shows that every stable sort of the scores gives this one result.
- `queries.dfy`: the read side of the store.
  - The access rule of `getSnippetById`.
  - The `where` clauses of the list and search queries.
  - The search pipeline as a function, with its properties.
- `store.dfy`: class `SnippetStore`.
  - It holds the table (a map from id to row), the team memberships and the next serial id.
  - Its methods are `createSnippet`, `updateSnippet`, `deleteSnippet` and `searchSnippetsByEmbedding`.
  - Alongside are lemmas on how the embedding column evolves.
- `routes.dfy`: POST and PUT payload shaping, and the record invariants it gives.

Parameters stand in for what the model cannot see:
- The embedding generator is a function `embed` from text to a vector. It returns `None` when `generateEmbedding` throws.
- `Math.sqrt` is a function positive on positive reals.
- The clock is `now`.
- The order in which the database returns rows is `scan`, a list of every id exactly once. No query sets that order.

Two behaviours are modelled exactly as written:
- `getSnippetById` lets a team member read any snippet that has a team id, whatever its visibility (lib/db/queries.ts:206-217). The search requires visibility `team` (lib/db/queries.ts:357).
- The comments of the PUT handler (app/api/snippets/[id]/route.ts:86-89) expect `teamId` to be cleared when visibility leaves `team`. Only the POST handler clears it, at creation. `updateSnippet` spreads the payload and never touches `teamId`, and the PUT handler never sends one. So a team snippet made private stays readable by id for team members but drops out of their search results. `Store.TeamRecordMadePrivate` and `Routes.PutToPrivateBreaksSharing` state this.

## Model

| member | source | states |
|---|---|---|
| SnippetValidators.ParseVisibility | lib/validators/snippet-validators.ts:3 | accepts exactly `private`, `team`, `public`, and the result is written back as the same string |
| SnippetValidators.VisibilityRoundTrip | lib/validators/snippet-validators.ts:3 | every visibility value parses back from its name |
| SnippetValidators.CreateValidMeans | lib/validators/snippet-validators.ts:5-13 | the create schema accepts iff all of these hold: title 1..255; code at least 1; language 1..100; description absent, null or at most 1000; tags absent, null or at most 10 of at most 50 each; teamId absent, null or positive; visibility one of the three names |
| SnippetValidators.UpdateValidMeans | lib/validators/snippet-validators.ts:17-25 | the update schema accepts iff every present key obeys the create bounds; only description and tags may be null |
| SnippetValidators.EmptyUpdateValid | lib/validators/snippet-validators.ts:17-25 | the empty update body is valid |
| SnippetValidators.CreateValidImpliesUpdateValid | lib/validators/snippet-validators.ts:5-25 | every body valid for create is valid for update |
| SnippetValidators.UpdateIgnoresTeamId | lib/validators/snippet-validators.ts:23 | the update verdict does not depend on `teamId` |
| EmbeddingText.RenderRead | lib/db/queries.ts:160-164 | the canonical text reads back into title, language, description (null as empty), joined tags (missing as empty) and the whole code, when the first four have no line break |
| EmbeddingText.NullAndEmptyDescriptionAgree | lib/db/queries.ts:163 | a null and an empty description give the same text |
| Vectors.CosineSimilarity | lib/db/queries.ts:323-339 | the loop's dot product and squared norms, the guards and the quotient give exactly `Cosine` |
| Vectors.CosineZeroCases | lib/db/queries.ts:324-337 | an empty vector, different lengths or an all-zero vector give 0 |
| Vectors.CosineNonZero | lib/db/queries.ts:323-339 | a non-zero score needs equal non-zero lengths, positive squared norms, a non-zero dot product and no all-zero vector |
| Vectors.CosineSymmetric | lib/db/queries.ts:323-339 | the similarity is symmetric in its two vectors, whatever the square root |
| Vectors.CosineSelf | lib/db/queries.ts:338 | with an exact square root, a vector of non-zero norm scores 1 against itself |
| Vectors.DotSymmetric | lib/db/queries.ts:330-334 | the accumulated dot product is symmetric |
| Vectors.SquaredNormNonnegative | lib/db/queries.ts:332-333 | the accumulated squared norms are never negative |
| Vectors.DotZero | lib/db/queries.ts:330-334 | an all-zero vector has dot product 0 with every vector |
| Ranking.SortBySimilarity | lib/db/queries.ts:387 | the in-place sort leaves the array equal to `SortDesc` of its old contents |
| Ranking.InsertLeft | lib/db/queries.ts:387 | one insertion step places the element after every element scoring at least as much and leaves the rest of the array alone |
| Ranking.SortDescCorrect | lib/db/queries.ts:387 | the sort is a permutation, non-increasing in score, and keeps the order of equal scores |
| Ranking.InsertSorted | lib/db/queries.ts:387 | inserting into a sorted sequence keeps it sorted |
| Ranking.InsertStable | lib/db/queries.ts:387 | an inserted element goes after every element of its own score |
| Ranking.StableSortUnique | lib/db/queries.ts:387 | two sorted sequences with the same order within each score are equal |
| Ranking.StableSortIsSortDesc | lib/db/queries.ts:387 | any stable descending sort of the scores yields `SortDesc` |
| Queries.GetSnippetById | lib/db/queries.ts:185-225 | returns the record iff it exists and the caller owns it, is in its (truthy) team, or it is public; otherwise null |
| Queries.AnonymousReadsOnlyPublic | tests/api/snippets.test.ts:146 | a caller who owns nothing and is in no team (the anonymous -1) reads exactly the public records |
| Queries.TeamMemberReadsPrivate | lib/db/queries.ts:206-217 | a team member reads a private record of the team |
| Queries.Matching | lib/db/queries.ts:227-240 | the selected ids are stored, satisfy the clause, and come from the scan |
| Queries.MatchingComplete | lib/db/queries.ts:227-240 | every scanned id whose record satisfies the clause is selected |
| Queries.MatchingDistinct | lib/db/queries.ts:349-359 | a record meeting several disjuncts of the search clause is selected once |
| Queries.Fetch | lib/db/queries.ts:349-361 | each fetched row satisfies the clause and, in a table keyed by id, is the row stored under its own id; over a whole-table scan every stored row that satisfies the clause is fetched, and none twice |
| Queries.SelectMembers | lib/db/queries.ts:227-240 | a list query returns a record iff it is stored and satisfies the query's clause |
| Queries.SelectComplete | lib/db/queries.ts:227-240 | over a whole-table scan, a list query returns every stored record that satisfies its clause |
| Queries.SelectSound | lib/db/queries.ts:227-240 | whatever a list query returns is stored and satisfies its clause, for any row order |
| Queries.GetSnippetsByUser | lib/db/queries.ts:227-229 | returns only stored records of that user and, over a whole-table scan, all of them |
| Queries.GetSnippetsByTeam | lib/db/queries.ts:231-236 | returns only stored records of that team with visibility `team` and, over a whole-table scan, all of them |
| Queries.GetPublicSnippets | lib/db/queries.ts:238-240 | returns only stored public records and, over a whole-table scan, all of them |
| Queries.ScoreRows | lib/db/queries.ts:364-384 | every scored record comes from a candidate with a vector embedding, and carries that vector's similarity |
| Queries.ScoreRowsComplete | lib/db/queries.ts:364-384 | every candidate with a vector embedding is scored; null and malformed ones are skipped |
| Queries.SearchBound | lib/db/queries.ts:345-389 | at most `limit` results (10 by default), and fewer only when fewer candidates were scored |
| Queries.SearchSound | lib/db/queries.ts:349-384 | every result is stored under its id, has a vector embedding, carries that vector's similarity, and satisfies the candidate clause |
| Queries.SearchOrdered | lib/db/queries.ts:387-389 | results are in non-increasing order of similarity |
| Queries.SearchStable | lib/db/queries.ts:387-389 | for each score, the results are the first candidates of that score in fetch order |
| Queries.SearchTopK | lib/db/queries.ts:386-389 | a scored candidate that is left out scores no more than any result |
| Queries.SearchReadable | lib/db/queries.ts:352-358 | a search candidate is readable by `getSnippetById` for the same caller when the team id passed is one of the caller's teams |
| Store.Merge | lib/db/queries.ts:263 | the merged record keeps id, owner and creation time and takes `now` as update time |
| Store.MergeEmptyAndIdempotent | lib/db/queries.ts:263 | an empty payload changes only `updatedAt`; merging the same payload twice is merging it once |
| Store.SnippetStore.CreateSnippet | lib/db/queries.ts:166-183 | inserts one record with every payload field under a fresh id; the embedding is the generated vector of its text, or null when generation throws; nothing else changes |
| Store.CreatorReadsCreated | lib/db/queries.ts:166-183 | the creator can read the inserted record by id |
| Store.SnippetStore.UpdateSnippet | lib/db/queries.ts:242-296 | null with the table unchanged iff the id is missing or not owned by the caller; otherwise the merged record, stored with `UpdatedRow`'s embedding; other records untouched |
| Store.UnchangedContentSameText | lib/db/queries.ts:265-273 | when no content field changes, the merged record's canonical text is the old one |
| Store.VisibilityOnlyKeepsEmbedding | lib/db/queries.ts:265-273 | a payload without content fields keeps the embedding |
| Store.EmbeddingChangesOnlyOnRegeneration | lib/db/queries.ts:266-286 | the stored embedding changes iff a content field changed, the generator returned a vector, and that vector differs from the stored one; a payload that re-sends unchanged content keeps the embedding |
| Store.ChangedCodeRegenerates | lib/db/queries.ts:275-281 | changed code stores the generated vector of the merged record's text |
| Store.CodeChangeChangesText | lib/db/queries.ts:160-164 | new code, with the other content fields unchanged, changes the text the record is embedded from |
| Store.FailedRegenerationKeepsEmbedding | lib/db/queries.ts:278-286 | when the generator throws, the old embedding stays |
| Store.UpdateKeepsCurrent | lib/db/queries.ts:263-287 | an update keeps a stored vector equal to the generator's vector for the record's text, unless regeneration is needed and fails |
| Store.FailedRegenerationLeavesStale | lib/db/queries.ts:266-285 | when only the code changes and regeneration throws, a vector that was current is kept: it is still the generator's vector for the old text, and the record's text now differs from that old text |
| Store.TeamRecordMadePrivate | lib/db/queries.ts:289-293 | a team record made private stays readable by id for team members but leaves their search candidates |
| Store.SnippetStore.DeleteSnippet | lib/db/queries.ts:298-320 | succeeds and removes exactly that record iff it exists and the caller owns it; otherwise fails with the table unchanged |
| Store.DeletedIsGone | lib/db/queries.ts:318 | a deleted record reads as missing for everybody; other records read as before |
| Store.SnippetStore.SearchSnippetsByEmbedding | lib/db/queries.ts:341-393 | the candidate query, scoring loop, in-place sort, slice and strip return exactly `SearchSnippets` |
| Routes.PostSnippet | app/api/snippets/route.ts:21-55 | an insert payload only for a valid body; it is owned by the caller, and its team id is set exactly for `team` visibility |
| Routes.PostRefusesOnlyTeamWithoutId | app/api/snippets/route.ts:36-41 | a valid body is refused iff it asks for `team` visibility without a team id |
| Routes.PostedContentOk | app/api/snippets/route.ts:46-55 | every record inserted through POST satisfies the schema bounds |
| Routes.PutSnippet | lib/validators/snippet-validators.ts:17-25 | the PUT handler (lines 60-84 of `app/api/snippets/[id]/route.ts`: copy each key the body holds, `tags || []`, never `teamId`) builds an update payload only from a body the update schema accepts, and the payload never carries `teamId` |
| Routes.PutAccepts | lib/validators/snippet-validators.ts:17-25 | PUT passes a body on iff the update schema accepts it and it has at least one schema key, the key-count refusal at line 71 of `app/api/snippets/[id]/route.ts` |
| Routes.PutKeepsContentOk | lib/validators/snippet-validators.ts:17-25 | an update through PUT keeps a record within the schema bounds |
| Routes.PutKeepsTeam | lib/db/queries.ts:263 | no update through PUT changes a record's team id |
| Routes.PutToPrivateBreaksSharing | lib/db/queries.ts:289-293 | a consistent team record made private through PUT keeps its team id, so it is no longer consistent |

## Left out

- Session and team plumbing (`getUser`, `getTeamByStripeCustomerId`, `updateTeamSubscription`, `getUserWithTeam`, `getActivityLogs`, `getTeamForUser`, lib/db/queries.ts:18-140). These are cookie and token checks, Stripe data and joins. The caller is a plain user id, and team membership is a set of `(teamId, userId)` pairs fixed when the store is built.
- lib/ai/embeddings.ts is not part of this model. Its lazy model loading is replaced by the parameter `embed`. `embed` is a function, so the same text always gives the same outcome.
- Floating point:
  - vectors and scores are reals;
  - `Math.sqrt` is a parameter, known only to be positive on positive inputs;
  - NaN, infinities and rounding are not modelled;
  - the range [-1, 1] of the similarity is not proved.
- `JSON.stringify`/`JSON.parse` of embeddings are not modelled as text. Their outcome is the `Null | Malformed | Vector` datatype. A generated vector is stored as `Vector`.
- Timestamps are the parameter `now`. Column defaults give `createdAt`/`updatedAt` at insert.
- Row order is the parameter `scan`. Nothing fixes it in the source.
- Concurrency: the update and delete read the row and then write it, and nothing orders these steps against other requests.
- Update payload keys other than title, code, language, description, tags, teamId and visibility (`id`, `userId`, timestamps) are not modelled. The routes never send them.
- `limit` is an integer or left out. A fractional, NaN or null limit is not modelled.
- String lengths are lengths of character sequences. zod counts UTF-16 code units.
- Non-integer numbers for `teamId` are not modelled. The schema rejects them with `.int()`.
- The route handlers' status codes and authentication, and the GET list route, are not modelled.
- The search route's query validation and the generation of the query vector are not modelled either. The query vector is a parameter.
- The UI components are not modelled.
- Vectors.CosineZeroCases: proves that an all-zero vector scores 0. It does not prove that a zero squared norm happens only for the all-zero vector.
- Ranking.SortBySimilarity: the engine's sort algorithm is replaced by an insertion sort. `Ranking.StableSortIsSortDesc` shows that every stable descending sort gives the same result.
