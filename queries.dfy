/** The read side of `lib/db/queries.ts`: the access check of
    `getSnippetById`, the three list queries, and the search pipeline
    (candidate query, scoring, stable sort, `slice(0, limit)`, stripping of
    the score). The table is a map from id to row; the order in which the
    database returns rows, which no query fixes with an `ORDER BY`, is a
    parameter `scan`. */
module Queries {
  import opened Wrappers
  import opened Snippets
  import opened Vectors
  import opened Ranking

  /** The `snippets` table, keyed by id. */
  type Table = map<int, Row>

  /** Every row is stored under its own id. */
  predicate Keyed(rows: Table)
  {
    forall k :: k in rows ==> rows[k].snippet.id == k
  }

  /** `scan` lists every id of the table exactly once: the order in which a
      `select` without `ORDER BY` returns the rows. */
  predicate IsScan(rows: Table, scan: seq<int>)
  {
    && (forall i :: 0 <= i < |scan| ==> scan[i] in rows)
    && (forall k :: k in rows ==> k in scan)
    && Distinct(scan)
  }

  /** No id occurs twice. */
  predicate Distinct(ids: seq<int>)
  {
    forall i, j :: 0 <= i < j < |ids| ==> ids[i] != ids[j]
  }

  /** The records of the table, without their embeddings. */
  function Stored(rows: Table): set<Snippet>
  {
    set k | k in rows :: rows[k].snippet
  }

  // ---------------------------------------------------------------------
  // getSnippetById
  // ---------------------------------------------------------------------

  /** The access rule of `getSnippetById`: the owner; a member of the
      snippet's team, whenever the snippet has a (truthy) team id, whatever
      its visibility; anyone, when it is public. `members` holds the
      `(teamId, userId)` pairs of `team_members`. */
  predicate CanRead(s: Snippet, members: set<(int, int)>, userId: int)
  {
    || s.userId == userId
    || (TeamIdTruthy(s.teamId) && (s.teamId.value, userId) in members)
    || s.visibility == Public
  }

  /** `getSnippetById(snippetId, userId)`: the record, or null both when
      there is no such id and when access is denied. */
  function GetSnippetById(rows: Table, members: set<(int, int)>, snippetId: int, userId: int)
    : (r: Option<Snippet>)
    ensures r.Some? <==> snippetId in rows && CanRead(rows[snippetId].snippet, members, userId)
    ensures r.Some? ==> r.value == rows[snippetId].snippet
  {
    if snippetId !in rows then None
    else
      var snippet := rows[snippetId].snippet;
      if snippet.userId == userId then Some(snippet)
      else if TeamIdTruthy(snippet.teamId) && (snippet.teamId.value, userId) in members then Some(snippet)
      else if snippet.visibility == Public then Some(snippet)
      else None
  }

  /** A caller who owns nothing and belongs to no team (the anonymous
      caller, id -1) reads a record exactly when it is public. */
  lemma AnonymousReadsOnlyPublic(rows: Table, members: set<(int, int)>, snippetId: int, userId: int)
    requires forall k :: k in rows ==> rows[k].snippet.userId != userId
    requires forall t :: (t, userId) !in members
    ensures GetSnippetById(rows, members, snippetId, userId).Some?
        <==> snippetId in rows && rows[snippetId].snippet.visibility == Public
  {
  }

  /** The team branch checks no visibility: a team member reads a private
      record of the team as well. */
  lemma TeamMemberReadsPrivate(rows: Table, members: set<(int, int)>, snippetId: int, userId: int)
    requires snippetId in rows
    requires rows[snippetId].snippet.visibility == Private
    requires TeamIdTruthy(rows[snippetId].snippet.teamId)
    requires (rows[snippetId].snippet.teamId.value, userId) in members
    ensures GetSnippetById(rows, members, snippetId, userId) == Some(rows[snippetId].snippet)
  {
  }

  // ---------------------------------------------------------------------
  // The list queries and the candidate query of the search
  // ---------------------------------------------------------------------

  /** The `where` clauses of the queries that return several rows. */
  datatype Filter =
    | OwnedBy(userId: int)
    | SharedWithTeam(teamId: int)
    | PublicOnly
    | SearchCandidates(callerId: int, callerTeam: Option<int>)

  /** Whether a record satisfies a `where` clause. In the search clause the
      team disjunct is dropped (`undefined` inside `or`) unless the caller's
      team id is truthy; an SQL NULL `teamId` equals nothing. */
  predicate Matches(f: Filter, s: Snippet)
  {
    match f
    case OwnedBy(u) => s.userId == u
    case SharedWithTeam(t) => s.teamId == Some(t) && s.visibility == Team
    case PublicOnly => s.visibility == Public
    case SearchCandidates(u, t) =>
      || s.userId == u
      || s.visibility == Public
      || (TeamIdTruthy(t) && s.teamId == t && s.visibility == Team)
  }

  /** The ids of the rows a `select ... where f` returns, in scan order. */
  function Matching(rows: Table, scan: seq<int>, f: Filter): (ids: seq<int>)
    ensures |ids| <= |scan|
    ensures forall i :: 0 <= i < |ids| ==> ids[i] in rows && Matches(f, rows[ids[i]].snippet)
    ensures forall k :: k in ids ==> k in scan
  {
    if scan == [] then []
    else
      var rest := Matching(rows, scan[..|scan| - 1], f);
      var k := scan[|scan| - 1];
      if k in rows && Matches(f, rows[k].snippet) then rest + [k] else rest
  }

  /** Every id of the scan whose row satisfies the clause is selected. */
  lemma {:induction false} MatchingComplete(rows: Table, scan: seq<int>, f: Filter, k: int)
    requires k in scan && k in rows && Matches(f, rows[k].snippet)
    ensures k in Matching(rows, scan, f)
  {
    if scan[|scan| - 1] != k {
      assert k in scan[..|scan| - 1];
      MatchingComplete(rows, scan[..|scan| - 1], f, k);
    }
  }

  /** A record that meets several disjuncts of a clause is still selected
      once: the selected ids are as distinct as the scan's. */
  lemma {:induction false} MatchingDistinct(rows: Table, scan: seq<int>, f: Filter)
    requires Distinct(scan)
    ensures Distinct(Matching(rows, scan, f))
  {
    if scan != [] {
      var init := scan[..|scan| - 1];
      MatchingDistinct(rows, init, f);
      var k := scan[|scan| - 1];
      assert k !in init;
      var rest := Matching(rows, init, f);
      assert k !in rest;
      var ids := Matching(rows, scan, f);
      if k in rows && Matches(f, rows[k].snippet) {
        assert ids == rest + [k];
        forall i, j | 0 <= i < j < |ids| ensures ids[i] != ids[j] {
          if j == |rest| {
            assert ids[i] == rest[i] && rest[i] in rest;
          } else {
            assert ids[i] == rest[i] && ids[j] == rest[j];
          }
        }
      }
    }
  }

  /** The rows a `select ... where f` returns, in scan order: each is a
      row of the table, stored under its own id, that satisfies the clause;
      over a scan of the whole table every such row is returned, and none
      twice. */
  function Fetch(rows: Table, scan: seq<int>, f: Filter): (r: seq<Row>)
    ensures var ids := Matching(rows, scan, f);
            |r| == |ids| && forall i :: 0 <= i < |ids| ==> r[i] == rows[ids[i]]
    ensures forall i :: 0 <= i < |r| ==> Matches(f, r[i].snippet)
    ensures Keyed(rows) ==>
              forall i :: 0 <= i < |r| ==> r[i].snippet.id in rows && rows[r[i].snippet.id] == r[i]
    ensures IsScan(rows, scan) ==> forall k :: k in rows && Matches(f, rows[k].snippet) ==> rows[k] in r
    ensures Keyed(rows) && Distinct(scan) ==> forall i, j :: 0 <= i < j < |r| ==> r[i] != r[j]
  {
    var ids := Matching(rows, scan, f);
    var r := seq(|ids|, i requires 0 <= i < |ids| => rows[ids[i]]);
    FetchKeyed(rows, scan, f, ids, r);
    FetchComplete(rows, scan, f, ids, r);
    FetchDistinct(rows, scan, f, ids, r);
    r
  }

  /** A fetched row of a keyed table is the row stored under its id. */
  lemma FetchKeyed(rows: Table, scan: seq<int>, f: Filter, ids: seq<int>, r: seq<Row>)
    requires ids == Matching(rows, scan, f)
    requires |r| == |ids| && forall i :: 0 <= i < |ids| ==> r[i] == rows[ids[i]]
    ensures Keyed(rows) ==>
              forall i :: 0 <= i < |r| ==> r[i].snippet.id in rows && rows[r[i].snippet.id] == r[i]
  {
    if Keyed(rows) {
      forall i | 0 <= i < |r| ensures r[i].snippet.id in rows && rows[r[i].snippet.id] == r[i] {
        assert ids[i] in rows && r[i].snippet.id == ids[i];
      }
    }
  }

  /** Over a whole-table scan, every row that satisfies the clause is
      fetched. */
  lemma FetchComplete(rows: Table, scan: seq<int>, f: Filter, ids: seq<int>, r: seq<Row>)
    requires ids == Matching(rows, scan, f)
    requires |r| == |ids| && forall i :: 0 <= i < |ids| ==> r[i] == rows[ids[i]]
    ensures IsScan(rows, scan) ==> forall k :: k in rows && Matches(f, rows[k].snippet) ==> rows[k] in r
  {
    if IsScan(rows, scan) {
      forall k | k in rows && Matches(f, rows[k].snippet) ensures rows[k] in r {
        MatchingComplete(rows, scan, f, k);
        var i :| 0 <= i < |ids| && ids[i] == k;
        assert r[i] == rows[k];
      }
    }
  }

  /** Rows stored under their own ids are fetched at most once from a
      scan without repeats. */
  lemma FetchDistinct(rows: Table, scan: seq<int>, f: Filter, ids: seq<int>, r: seq<Row>)
    requires ids == Matching(rows, scan, f)
    requires |r| == |ids| && forall i :: 0 <= i < |ids| ==> r[i] == rows[ids[i]]
    ensures Keyed(rows) && Distinct(scan) ==> forall i, j :: 0 <= i < j < |r| ==> r[i] != r[j]
  {
    if Keyed(rows) && Distinct(scan) {
      MatchingDistinct(rows, scan, f);
      forall i, j | 0 <= i < j < |r| ensures r[i] != r[j] {
        assert r[i].snippet.id == ids[i] && r[j].snippet.id == ids[j];
      }
    }
  }

  /** `select(snippetSelection).from(snippets).where(f)`: every column but
      the embedding. */
  function Select(rows: Table, scan: seq<int>, f: Filter): seq<Snippet>
  {
    var rs := Fetch(rows, scan, f);
    seq(|rs|, i requires 0 <= i < |rs| => rs[i].snippet)
  }

  /** A list query returns exactly the stored records that satisfy its
      clause (given a scan of the whole table). */
  lemma SelectMembers(rows: Table, scan: seq<int>, f: Filter, s: Snippet)
    requires IsScan(rows, scan)
    ensures s in Select(rows, scan, f) <==> s in Stored(rows) && Matches(f, s)
  {
    var ids := Matching(rows, scan, f);
    var selected := Select(rows, scan, f);
    if s in selected {
      SelectSound(rows, scan, f);
    }
    if s in Stored(rows) && Matches(f, s) {
      var k :| k in rows && rows[k].snippet == s;
      MatchingComplete(rows, scan, f, k);
      var i :| 0 <= i < |ids| && ids[i] == k;
      assert selected[i] == s;
    }
  }

  /** `getSnippetsByUser(userId)`. */
  function GetSnippetsByUser(rows: Table, scan: seq<int>, userId: int): (r: seq<Snippet>)
    ensures forall s :: s in r ==> s in Stored(rows) && s.userId == userId
    ensures IsScan(rows, scan) ==> forall s :: s in Stored(rows) && s.userId == userId ==> s in r
  {
    SelectSound(rows, scan, OwnedBy(userId));
    SelectComplete(rows, scan, OwnedBy(userId));
    Select(rows, scan, OwnedBy(userId))
  }

  /** `getSnippetsByTeam(teamId)`: the team's records of visibility `team`
      only. */
  function GetSnippetsByTeam(rows: Table, scan: seq<int>, teamId: int): (r: seq<Snippet>)
    ensures forall s :: s in r ==> s in Stored(rows) && s.teamId == Some(teamId) && s.visibility == Team
    ensures IsScan(rows, scan) ==> forall s :: s in Stored(rows) && s.teamId == Some(teamId) && s.visibility == Team ==> s in r
  {
    SelectSound(rows, scan, SharedWithTeam(teamId));
    SelectComplete(rows, scan, SharedWithTeam(teamId));
    Select(rows, scan, SharedWithTeam(teamId))
  }

  /** `getPublicSnippets()`. */
  function GetPublicSnippets(rows: Table, scan: seq<int>): (r: seq<Snippet>)
    ensures forall s :: s in r ==> s in Stored(rows) && s.visibility == Public
    ensures IsScan(rows, scan) ==> forall s :: s in Stored(rows) && s.visibility == Public ==> s in r
  {
    SelectSound(rows, scan, PublicOnly);
    SelectComplete(rows, scan, PublicOnly);
    Select(rows, scan, PublicOnly)
  }

  /** Over a whole-table scan, a list query returns every stored record
      that satisfies its clause. */
  lemma SelectComplete(rows: Table, scan: seq<int>, f: Filter)
    ensures IsScan(rows, scan) ==> forall s :: s in Stored(rows) && Matches(f, s) ==> s in Select(rows, scan, f)
  {
    if IsScan(rows, scan) {
      forall s | s in Stored(rows) && Matches(f, s) ensures s in Select(rows, scan, f) {
        SelectMembers(rows, scan, f, s);
      }
    }
  }

  /** What a list query returns is stored and satisfies its clause, for any
      scan. */
  lemma SelectSound(rows: Table, scan: seq<int>, f: Filter)
    ensures forall s :: s in Select(rows, scan, f) ==> s in Stored(rows) && Matches(f, s)
  {
    var ids := Matching(rows, scan, f);
    forall s | s in Select(rows, scan, f) ensures s in Stored(rows) && Matches(f, s) {
      var i :| 0 <= i < |ids| && Select(rows, scan, f)[i] == s;
      var k := ids[i];
      assert k in rows && s == rows[k].snippet;
    }
  }

  // ---------------------------------------------------------------------
  // searchSnippetsByEmbedding
  // ---------------------------------------------------------------------

  /** The score of one candidate row: none when its embedding is null or does
      not parse to a NaN-free array; otherwise the record with the cosine
      similarity of the query vector and the stored vector. */
  function Score(row: Row, queryVector: seq<real>, sqrt: SqrtFn): Option<Scored>
  {
    match row.embedding
    case Vector(v) => Some(Scored(row.snippet, Cosine(queryVector, v, sqrt)))
    case _ => None
  }

  /** `.map(...).filter(Boolean)`: the scored candidates, in fetch order. */
  function ScoreRows(rs: seq<Row>, queryVector: seq<real>, sqrt: SqrtFn): (r: seq<Scored>)
    ensures |r| <= |rs|
    ensures forall x :: x in r ==> exists j :: 0 <= j < |rs| && Score(rs[j], queryVector, sqrt) == Some(x)
  {
    if rs == [] then []
    else
      var rest := ScoreRows(rs[..|rs| - 1], queryVector, sqrt);
      match Score(rs[|rs| - 1], queryVector, sqrt)
      case Some(x) => rest + [x]
      case None => rest
  }

  /** Every candidate with a vector is scored. */
  lemma {:induction false} ScoreRowsComplete(rs: seq<Row>, queryVector: seq<real>, sqrt: SqrtFn, y: Row)
    requires y in rs && y.embedding.Vector?
    ensures Score(y, queryVector, sqrt).value in ScoreRows(rs, queryVector, sqrt)
  {
    if rs[|rs| - 1] != y {
      assert y in rs[..|rs| - 1];
      ScoreRowsComplete(rs[..|rs| - 1], queryVector, sqrt, y);
    }
  }

  /** The JavaScript default of `limit`. */
  const DefaultLimit := 10

  /** The limit in force: the argument, or the default when it is left out. */
  function LimitOf(limit: Option<int>): int
  {
    if limit.Some? then limit.value else DefaultLimit
  }

  /** Where `slice(0, limit)` ends on an array of length `len`: a negative
      limit counts back from the end. */
  function SliceEnd(len: nat, limit: int): (n: nat)
    ensures n <= len
  {
    if limit < 0 then (if len + limit < 0 then 0 else len + limit)
    else if limit < len then limit
    else len
  }

  /** The candidate rows of a search. */
  function Candidates(rows: Table, scan: seq<int>, userId: int, teamId: Option<int>): seq<Row>
  {
    Fetch(rows, scan, SearchCandidates(userId, teamId))
  }

  /** The scored results of a search before the score is stripped: the
      first `limit` candidates of the stable descending sort. `limit` is
      `None` when the argument is left out. */
  function Ranked(rows: Table, scan: seq<int>, queryVector: seq<real>, userId: int,
                  teamId: Option<int>, limit: Option<int>, sqrt: SqrtFn): seq<Scored>
  {
    var sorted := SortDesc(ScoreRows(Candidates(rows, scan, userId, teamId), queryVector, sqrt));
    sorted[..SliceEnd(|sorted|, LimitOf(limit))]
  }

  /** `.map(s => { const { similarity, ...snippetFields } = s; ... })`. */
  function Strip(s: seq<Scored>): (r: seq<Snippet>)
    ensures |r| == |s|
    ensures forall i :: 0 <= i < |s| ==> r[i] == s[i].snippet
  {
    seq(|s|, i requires 0 <= i < |s| => s[i].snippet)
  }

  /** `searchSnippetsByEmbedding(queryVector, userId, teamId, limit)`. */
  function SearchSnippets(rows: Table, scan: seq<int>, queryVector: seq<real>, userId: int,
                  teamId: Option<int>, limit: Option<int>, sqrt: SqrtFn): seq<Snippet>
  {
    Strip(Ranked(rows, scan, queryVector, userId, teamId, limit, sqrt))
  }

  /** At most `limit` results (10 by default) for a limit that is not
      negative, and fewer only when there are fewer scored candidates. */
  lemma SearchBound(rows: Table, scan: seq<int>, queryVector: seq<real>, userId: int,
                    teamId: Option<int>, limit: Option<int>, sqrt: SqrtFn)
    requires LimitOf(limit) >= 0
    ensures var n := |SearchSnippets(rows, scan, queryVector, userId, teamId, limit, sqrt)|;
            var m := |ScoreRows(Candidates(rows, scan, userId, teamId), queryVector, sqrt)|;
            n <= LimitOf(limit) && (n == LimitOf(limit) || n == m)
  {
    SortDescCorrect(ScoreRows(Candidates(rows, scan, userId, teamId), queryVector, sqrt));
  }

  /** Every result is a stored record the caller may see in a search, stored
      with a vector, and carries the similarity of that vector; records with
      a null or malformed embedding are never returned. */
  lemma SearchSound(rows: Table, scan: seq<int>, queryVector: seq<real>, userId: int,
                    teamId: Option<int>, limit: Option<int>, sqrt: SqrtFn, x: Scored)
    requires Keyed(rows)
    requires x in Ranked(rows, scan, queryVector, userId, teamId, limit, sqrt)
    ensures x.snippet.id in rows && rows[x.snippet.id].snippet == x.snippet
    ensures rows[x.snippet.id].embedding.Vector?
    ensures x.similarity == Cosine(queryVector, rows[x.snippet.id].embedding.values, sqrt)
    ensures Matches(SearchCandidates(userId, teamId), x.snippet)
  {
    var cands := Candidates(rows, scan, userId, teamId);
    var scored := ScoreRows(cands, queryVector, sqrt);
    RankedScored(rows, scan, queryVector, userId, teamId, limit, sqrt, x);
    var j :| 0 <= j < |cands| && Score(cands[j], queryVector, sqrt) == Some(x);
    var ids := Matching(rows, scan, SearchCandidates(userId, teamId));
    var k := ids[j];
    assert cands[j] == rows[k];
    assert x.snippet == rows[k].snippet && k == x.snippet.id;
  }

  /** A result is one of the scored candidates. */
  lemma RankedScored(rows: Table, scan: seq<int>, queryVector: seq<real>, userId: int,
                     teamId: Option<int>, limit: Option<int>, sqrt: SqrtFn, x: Scored)
    requires x in Ranked(rows, scan, queryVector, userId, teamId, limit, sqrt)
    ensures x in ScoreRows(Candidates(rows, scan, userId, teamId), queryVector, sqrt)
  {
    var scored := ScoreRows(Candidates(rows, scan, userId, teamId), queryVector, sqrt);
    var sorted := SortDesc(scored);
    SortDescCorrect(scored);
    var ranked := Ranked(rows, scan, queryVector, userId, teamId, limit, sqrt);
    var i :| 0 <= i < |ranked| && ranked[i] == x;
    assert sorted[i] == x;
    assert x in multiset(sorted);
  }

  /** The results come in non-increasing order of similarity. */
  lemma SearchOrdered(rows: Table, scan: seq<int>, queryVector: seq<real>, userId: int,
                      teamId: Option<int>, limit: Option<int>, sqrt: SqrtFn)
    ensures SortedDesc(Ranked(rows, scan, queryVector, userId, teamId, limit, sqrt))
  {
    SortDescCorrect(ScoreRows(Candidates(rows, scan, userId, teamId), queryVector, sqrt));
  }

  /** The scores of a prefix of a sequence, per class, are a prefix of its
      scores. */
  lemma WithScorePrefix(s: seq<Scored>, n: nat, c: real)
    requires n <= |s|
    ensures WithScore(s[..n], c) <= WithScore(s, c)
  {
    assert s == s[..n] + s[n..];
    WithScoreAppend(s[..n], s[n..], c);
  }

  /** Ties keep fetch order: the results of each score are the first ones of
      that score among the candidates, in the order the candidates were
      fetched. */
  lemma SearchStable(rows: Table, scan: seq<int>, queryVector: seq<real>, userId: int,
                     teamId: Option<int>, limit: Option<int>, sqrt: SqrtFn, c: real)
    ensures WithScore(Ranked(rows, scan, queryVector, userId, teamId, limit, sqrt), c)
         <= WithScore(ScoreRows(Candidates(rows, scan, userId, teamId), queryVector, sqrt), c)
  {
    var scored := ScoreRows(Candidates(rows, scan, userId, teamId), queryVector, sqrt);
    var sorted := SortDesc(scored);
    SortDescCorrect(scored);
    WithScorePrefix(sorted, SliceEnd(|sorted|, LimitOf(limit)), c);
  }

  /** The results are the best: a scored candidate that is left out scores
      no more than any result. */
  lemma SearchTopK(rows: Table, scan: seq<int>, queryVector: seq<real>, userId: int,
                   teamId: Option<int>, limit: Option<int>, sqrt: SqrtFn, x: Scored, y: Scored)
    requires x in Ranked(rows, scan, queryVector, userId, teamId, limit, sqrt)
    requires y in ScoreRows(Candidates(rows, scan, userId, teamId), queryVector, sqrt)
    requires y !in Ranked(rows, scan, queryVector, userId, teamId, limit, sqrt)
    ensures x.similarity >= y.similarity
  {
    var scored := ScoreRows(Candidates(rows, scan, userId, teamId), queryVector, sqrt);
    var sorted := SortDesc(scored);
    SortDescCorrect(scored);
    var n := SliceEnd(|sorted|, LimitOf(limit));
    var ranked := sorted[..n];
    var i :| 0 <= i < |ranked| && ranked[i] == x;
    assert y in multiset(sorted);
    var j :| 0 <= j < |sorted| && sorted[j] == y;
    IndexInPrefix(sorted, n, j);
  }

  /** An element before position `n` belongs to the first `n` elements. */
  lemma IndexInPrefix<T>(s: seq<T>, n: nat, j: nat)
    requires n <= |s| && j < |s|
    ensures j < n ==> s[j] in s[..n]
  {
    if j < n {
      assert s[..n][j] == s[j];
    }
  }

  /** The search never returns a record `getSnippetById` would refuse the
      same caller, provided the team id passed in is one of the caller's
      teams. */
  lemma SearchReadable(s: Snippet, members: set<(int, int)>, userId: int, teamId: Option<int>)
    requires Matches(SearchCandidates(userId, teamId), s)
    requires TeamIdTruthy(teamId) ==> (teamId.value, userId) in members
    ensures CanRead(s, members, userId)
  {
  }
}
