/**
 * The two endpoints of the search service (app/api.py): `/search`, which
 * filters the job table, ranks the rows by a similarity score and assembles
 * at most ten results, and `/job/<id>`, which returns one row.
 *
 * The similarity scores (TF-IDF cosine similarity of the expanded query with
 * every row) and the fuzzy title matcher used for suggestions are inputs.
 */
module SearchEndpoint {
  import opened Optional
  import opened Text
  import opened QueryProcessing
  import opened Ranking

  /**
   * One row of the job table, empty cells read as "". `salaryValue` is what
   * `pd.to_numeric(..., errors='coerce')` makes of the Salary cell: a number,
   * or None for NaN.
   */
  datatype Row = Row(
    title: string, company: string, location: string, salary: string, salaryValue: Option<real>,
    jobType: string, datePosted: string, description: string, url: string, logo: string)

  /** The filters of one request: lower-cased location and job type, and the salary bounds read from the query. */
  datatype Criteria = Criteria(location: string, jobType: string, minSalary: Option<nat>, maxSalary: Option<nat>)

  /** One entry of `results`. */
  datatype Hit = Hit(
    id: nat, title: string, company: string, location: string, salary: string, jobType: string,
    datePosted: string, description: string, url: string, logo: string, score: real, rank: nat)

  /** The reply of `/search`: a 400 error, or the query with its results and, when there are none, suggestions. */
  datatype Reply =
    | BadRequest(status: nat, error: string)
    | Found(query: string, results: seq<Hit>, suggestions: Option<seq<string>>)

  /** The reply of `/job/<id>`. */
  datatype Detail =
    | NotFound(status: nat, error: string)
    | Job(title: string, company: string, location: string, salary: string, jobType: string,
          datePosted: string, description: string, url: string, logo: string)

  /** At most this many of the best-scored rows are considered. */
  const TopN: nat := 10

  /** A salary bound filters only when it is truthy: present and not 0. */
  predicate Active(bound: Option<nat>) {
    bound.Some? && bound.value != 0
  }

  /**
   * The row survives the filters: the non-empty location and job type occur
   * in the lower-cased cells, and an active salary bound admits only rows
   * whose salary is a number on the right side of it.
   */
  predicate Passes(row: Row, c: Criteria) {
    && (c.location == "" || Contains(Lower(row.location), c.location))
    && (c.jobType == "" || Contains(Lower(row.jobType), c.jobType))
    && (Active(c.minSalary) ==> row.salaryValue.Some? && row.salaryValue.value >= c.minSalary.value as real)
    && (Active(c.maxSalary) ==> row.salaryValue.Some? && row.salaryValue.value <= c.maxSalary.value as real)
  }

  /** The filters of a request with query `q` and the `location` and `job_type` arguments. */
  function CriteriaOf(q: string, location: string, jobType: string): (c: Criteria)
    ensures c.location == Lower(location) && c.jobType == Lower(jobType)
    ensures (c.minSalary, c.maxSalary) == ExtractSalaryRange(q)
    ensures forall i :: 0 <= i < |c.location| ==> !IsUpper(c.location[i])
    ensures forall i :: 0 <= i < |c.jobType| ==> !IsUpper(c.jobType[i])
    ensures c.minSalary.Some? && c.maxSalary.Some? ==> c.minSalary.value <= c.maxSalary.value
  {
    var (lo, hi) := ExtractSalaryRange(q);
    Criteria(Lower(location), Lower(jobType), lo, hi)
  }

  /** The index of the filtered frame: the positions of the rows that pass, in table order. */
  function Passing(rows: seq<Row>, c: Criteria): (r: seq<nat>)
    ensures Within(r, |rows|)
  {
    if rows == [] then []
    else
      var n := |rows| - 1;
      var prefix := Passing(rows[..n], c);
      assert forall a :: 0 <= a < |prefix| ==> rows[..n][prefix[a]] == rows[prefix[a]];
      prefix + (if Passes(rows[n], c) then [n] else [])
  }

  /** The filtered index holds exactly the passing positions, increasing. */
  lemma {:induction false} PassingIsFilter(rows: seq<Row>, c: Criteria)
    ensures forall j: nat :: j in Passing(rows, c) <==> j < |rows| && Passes(rows[j], c)
    ensures forall a, b :: 0 <= a < b < |Passing(rows, c)| ==> Passing(rows, c)[a] < Passing(rows, c)[b]
  {
    if rows != [] {
      var n := |rows| - 1;
      PassingIsFilter(rows[..n], c);
      var prefix := Passing(rows[..n], c);
      assert forall j :: 0 <= j < n ==> rows[..n][j] == rows[j];
      var r := Passing(rows, c);
      assert r == prefix + (if Passes(rows[n], c) then [n] else []);
      forall j: nat ensures j in r <==> j < |rows| && Passes(rows[j], c) {
        if j in r {
          var a :| 0 <= a < |r| && r[a] == j;
          if a < |prefix| {
            assert j in prefix;
          }
        }
        if j < n && Passes(rows[j], c) {
          assert j in prefix;
        }
      }
    }
  }

  /** The titles of the table, in order (`df['Title'].tolist()`). */
  function Titles(rows: seq<Row>): (r: seq<string>)
    ensures |r| == |rows| && forall j :: 0 <= j < |rows| ==> r[j] == rows[j].title
  {
    seq(|rows|, j requires 0 <= j < |rows| => rows[j].title)
  }

  /** The result entry for row `id` at position `rank` of the ranking. */
  function HitFor(row: Row, id: nat, score: real, rank: nat): Hit {
    Hit(id, row.title, row.company, row.location, row.salary, row.jobType,
        row.datePosted, row.description, row.url, row.logo, score, rank)
  }

  /** Each result is a passing row with a positive score, copied from the table, ranked by its position. */
  predicate HitsAreMatches(rows: seq<Row>, scores: seq<real>, c: Criteria, hits: seq<Hit>)
    requires |scores| == |rows|
  {
    forall h :: 0 <= h < |hits| ==>
      && hits[h].id < |rows|
      && Passes(rows[hits[h].id], c)
      && scores[hits[h].id] > 0.0
      && hits[h] == HitFor(rows[hits[h].id], hits[h].id, scores[hits[h].id], h + 1)
  }

  /** No row is listed twice. */
  predicate DistinctIds(hits: seq<Hit>) {
    forall a, b :: 0 <= a < b < |hits| ==> hits[a].id != hits[b].id
  }

  /** The results come best score first. */
  predicate ByScore(hits: seq<Hit>) {
    forall a, b :: 0 <= a < b < |hits| ==> hits[a].score >= hits[b].score
  }

  /**
   * No passing row with a positive score is missing unless the list is full
   * and that row scores no higher than any result.
   */
  predicate Complete(rows: seq<Row>, scores: seq<real>, c: Criteria, hits: seq<Hit>)
    requires |scores| == |rows|
  {
    forall j :: 0 <= j < |rows| && Passes(rows[j], c) && scores[j] > 0.0 && (forall h :: 0 <= h < |hits| ==> hits[h].id != j) ==>
      |hits| == TopN && forall h :: 0 <= h < |hits| ==> hits[h].score >= scores[j]
  }

  /** The scores of the filtered rows, in the order of the filtered index. */
  function FilteredScores(scores: seq<real>, filtered: seq<nat>): (keys: seq<real>)
    requires Within(filtered, |scores|)
    ensures |keys| == |filtered| && forall a :: 0 <= a < |filtered| ==> keys[a] == scores[filtered[a]]
  {
    seq(|filtered|, a requires 0 <= a < |filtered| => scores[filtered[a]])
  }

  /** The loop's invariant once it has gone over `top[..t]`: a result for each positive entry, in order. */
  predicate HitsOfTop(rows: seq<Row>, scores: seq<real>, filtered: seq<nat>, top: seq<nat>, t: nat, hits: seq<Hit>)
    requires |scores| == |rows| && Within(filtered, |rows|) && Within(top, |filtered|) && t <= |top|
  {
    && |hits| <= t
    && (forall s :: 0 <= s < t ==> (scores[filtered[top[s]]] > 0.0 <==> s < |hits|))
    && (forall h :: 0 <= h < |hits| ==>
          hits[h] == HitFor(rows[filtered[top[h]]], filtered[top[h]], scores[filtered[top[h]]], h + 1))
  }

  /** The first `k` positions of a sorted permutation are sorted and distinct, and come before all others. */
  lemma TopOfOrder(keys: seq<real>, k: nat)
    requires k <= |keys|
    ensures var order := Argsort(keys);
            && Descending(order[..k], keys) && Distinct(order[..k])
            && forall s, t :: 0 <= s < k <= t < |order| ==> keys[order[s]] >= keys[order[t]]
  {
    var order := Argsort(keys);
    ArgsortIsSortedPermutation(keys);
    assert forall s :: 0 <= s < k ==> order[..k][s] == order[s];
  }

  /** The scores of the top positions, read through the filtered index, never increase. */
  lemma ScoresOfTop(scores: seq<real>, filtered: seq<nat>, top: seq<nat>)
    requires Within(filtered, |scores|)
    requires Descending(top, FilteredScores(scores, filtered))
    ensures Within(top, |filtered|)
    ensures forall s, t :: 0 <= s < t < |top| ==> scores[filtered[top[s]]] >= scores[filtered[top[t]]]
  {
  }

  /** The results built from the top positions are passing rows with positive scores, ranked by position. */
  lemma TopHitsMatch(rows: seq<Row>, scores: seq<real>, c: Criteria, top: seq<nat>, hits: seq<Hit>)
    requires |scores| == |rows|
    requires Within(top, |Passing(rows, c)|)
    requires HitsOfTop(rows, scores, Passing(rows, c), top, |top|, hits)
    ensures HitsAreMatches(rows, scores, c, hits)
  {
    var filtered := Passing(rows, c);
    PassingIsFilter(rows, c);
    forall h | 0 <= h < |hits| ensures Passes(rows[filtered[top[h]]], c) {
      assert filtered[top[h]] in filtered;
    }
  }

  /** Distinct top positions give distinct rows, since the filtered index is increasing. */
  lemma TopHitsDistinct(rows: seq<Row>, scores: seq<real>, c: Criteria, top: seq<nat>, hits: seq<Hit>)
    requires |scores| == |rows|
    requires Within(top, |Passing(rows, c)|) && Distinct(top)
    requires HitsOfTop(rows, scores, Passing(rows, c), top, |top|, hits)
    ensures DistinctIds(hits)
  {
    var filtered := Passing(rows, c);
    PassingIsFilter(rows, c);
    forall a, b | 0 <= a < b < |hits| ensures hits[a].id != hits[b].id {
      if top[a] > top[b] {
        assert filtered[top[b]] < filtered[top[a]];
      } else {
        assert filtered[top[a]] < filtered[top[b]];
      }
    }
  }

  /** Top positions sorted by score give results sorted by score. */
  lemma TopHitsByScore(rows: seq<Row>, scores: seq<real>, c: Criteria, top: seq<nat>, hits: seq<Hit>)
    requires |scores| == |rows|
    requires Descending(top, FilteredScores(scores, Passing(rows, c)))
    requires HitsOfTop(rows, scores, Passing(rows, c), top, |top|, hits)
    ensures ByScore(hits)
  {
  }

  /** A zero score at position `t` is skipped, and the loop's invariant still holds after it. */
  lemma HitsOfTopSkip(rows: seq<Row>, scores: seq<real>, filtered: seq<nat>, top: seq<nat>, t: nat, hits: seq<Hit>)
    requires |scores| == |rows| && Within(filtered, |rows|) && Within(top, |filtered|) && t < |top|
    requires HitsOfTop(rows, scores, filtered, top, t, hits)
    requires scores[filtered[top[t]]] == 0.0
    ensures HitsOfTop(rows, scores, filtered, top, t + 1, hits)
  {
  }

  /**
   * A positive score at position `t`, where no earlier position scores
   * lower, becomes result number `t + 1`, and the loop's invariant still
   * holds after it.
   */
  lemma HitsOfTopTake(rows: seq<Row>, scores: seq<real>, filtered: seq<nat>, top: seq<nat>, t: nat, hits: seq<Hit>)
    requires |scores| == |rows| && Within(filtered, |rows|) && Within(top, |filtered|) && t < |top|
    requires HitsOfTop(rows, scores, filtered, top, t, hits)
    requires forall s :: 0 <= s < t ==> scores[filtered[top[s]]] >= scores[filtered[top[t]]]
    requires scores[filtered[top[t]]] > 0.0
    ensures var id := filtered[top[t]];
            HitsOfTop(rows, scores, filtered, top, t + 1, hits + [HitFor(rows[id], id, scores[id], t + 1)])
  {
    if t > 0 {
      assert scores[filtered[top[t - 1]]] > 0.0;
      assert t - 1 < |hits|;
    }
    assert |hits| == t;
  }

  /** A passing row has a position in the order of the filtered scores. */
  lemma PositionInOrder(rows: seq<Row>, scores: seq<real>, c: Criteria, j: nat) returns (t: nat)
    requires |scores| == |rows|
    requires j < |rows| && Passes(rows[j], c)
    ensures var order := Argsort(FilteredScores(scores, Passing(rows, c)));
            t < |order| && Passing(rows, c)[order[t]] == j
  {
    var filtered := Passing(rows, c);
    var keys := FilteredScores(scores, filtered);
    var order := Argsort(keys);
    PassingIsFilter(rows, c);
    assert j in filtered;
    var p :| 0 <= p < |filtered| && filtered[p] == j;
    ArgsortIsSortedPermutation(keys);
    assert p in order;
    t :| 0 <= t < |order| && order[t] == p;
  }

  /**
   * A passing row with a positive score that is not a result lies past the
   * first ten positions of the order, so all ten are results and none of
   * them scores lower.
   */
  lemma MissingRowIsOutranked(rows: seq<Row>, scores: seq<real>, c: Criteria, k: nat, hits: seq<Hit>, j: nat)
    requires |scores| == |rows|
    requires var order := Argsort(FilteredScores(scores, Passing(rows, c)));
             k == (if |order| < TopN then |order| else TopN)
    requires HitsOfTop(rows, scores, Passing(rows, c), Argsort(FilteredScores(scores, Passing(rows, c)))[..k], k, hits)
    requires j < |rows| && Passes(rows[j], c) && scores[j] > 0.0
    requires forall h :: 0 <= h < |hits| ==> hits[h].id != j
    ensures |hits| == TopN && forall h :: 0 <= h < |hits| ==> hits[h].score >= scores[j]
  {
    var filtered := Passing(rows, c);
    var keys := FilteredScores(scores, filtered);
    var order := Argsort(keys);
    var top := order[..k];
    var t := PositionInOrder(rows, scores, c, j);
    assert keys[order[t]] == scores[j];
    assert forall s :: 0 <= s < k ==> top[s] == order[s];
    assert k <= t;
    TopOfOrder(keys, k);
    assert k == TopN;
    forall s | 0 <= s < k ensures s < |hits| && keys[top[s]] >= scores[j] {
      assert top[s] == order[s];
      assert keys[order[s]] >= keys[order[t]];
      assert scores[filtered[top[s]]] == keys[top[s]] > 0.0;
    }
    var last := k - 1;
    assert 0 <= last < k;
    assert keys[top[last]] >= scores[j] && last < |hits|;
    forall h | 0 <= h < |hits| ensures hits[h].score >= scores[j] {
      assert hits[h].score == keys[top[h]];
    }
  }

  lemma TopHitsComplete(rows: seq<Row>, scores: seq<real>, c: Criteria, k: nat, hits: seq<Hit>)
    requires |scores| == |rows|
    requires var order := Argsort(FilteredScores(scores, Passing(rows, c)));
             k == (if |order| < TopN then |order| else TopN)
    requires HitsOfTop(rows, scores, Passing(rows, c), Argsort(FilteredScores(scores, Passing(rows, c)))[..k], k, hits)
    ensures Complete(rows, scores, c, hits)
  {
    forall j | 0 <= j < |rows| && Passes(rows[j], c) && scores[j] > 0.0 && (forall h :: 0 <= h < |hits| ==> hits[h].id != j)
      ensures |hits| == TopN && forall h :: 0 <= h < |hits| ==> hits[h].score >= scores[j]
    {
      MissingRowIsOutranked(rows, scores, c, k, hits, j);
    }
  }

  /**
   * The result part of `/search`: the filtered rows are ordered by
   * descending score, and of the first ten those with a positive score
   * become results, ranked by their position in that order.
   */
  method RankResults(rows: seq<Row>, scores: seq<real>, c: Criteria) returns (hits: seq<Hit>)
    requires |scores| == |rows|
    requires forall j :: 0 <= j < |scores| ==> scores[j] >= 0.0
    ensures |hits| <= TopN
    ensures HitsAreMatches(rows, scores, c, hits)
    ensures DistinctIds(hits)
    ensures ByScore(hits)
    ensures Complete(rows, scores, c, hits)
  {
    var filtered := Passing(rows, c);
    var keys := FilteredScores(scores, filtered);
    var order := Argsort(keys);
    var k := if |order| < TopN then |order| else TopN;
    var top := order[..k];
    TopOfOrder(keys, k);
    ScoresOfTop(scores, filtered, top);
    hits := [];
    for t := 0 to |top|
      invariant HitsOfTop(rows, scores, filtered, top, t, hits)
    {
      var realIdx := filtered[top[t]];
      if scores[realIdx] == 0.0 {
        HitsOfTopSkip(rows, scores, filtered, top, t, hits);
        continue;
      }
      HitsOfTopTake(rows, scores, filtered, top, t, hits);
      hits := hits + [HitFor(rows[realIdx], realIdx, scores[realIdx], t + 1)];
    }
    TopHitsMatch(rows, scores, c, top, hits);
    TopHitsDistinct(rows, scores, c, top, hits);
    TopHitsByScore(rows, scores, c, top, hits);
    TopHitsComplete(rows, scores, c, k, hits);
  }

  /**
   * `/search`. An empty query is refused with 400. Otherwise the salary
   * bounds are read from the query, the rows are filtered and ranked, and
   * with no result the suggestions are the close matches of the normalised
   * query among all titles.
   *
   * `scores[j]` is the similarity of the expanded, normalised query with
   * row `j`; `closeMatches` is the fuzzy title matcher.
   */
  method Search(rows: seq<Row>, q: string, location: string, jobType: string, stop: set<string>,
                scores: seq<real>, closeMatches: (string, seq<string>) -> seq<string>)
    returns (reply: Reply)
    requires |scores| == |rows|
    requires forall j :: 0 <= j < |scores| ==> scores[j] >= 0.0
    ensures q == "" <==> reply == BadRequest(400, "Query tidak boleh kosong")
    ensures q != "" ==> reply.Found? && reply.query == q
    ensures reply.Found? ==>
              var c := CriteriaOf(q, location, jobType);
              && |reply.results| <= TopN
              && HitsAreMatches(rows, scores, c, reply.results)
              && DistinctIds(reply.results)
              && ByScore(reply.results)
              && Complete(rows, scores, c, reply.results)
    ensures reply.Found? ==>
              (reply.suggestions.Some? <==> reply.results == [])
              && (reply.results == [] ==>
                    reply.suggestions == Some(closeMatches(PreprocessText(Str(q), stop), Titles(rows))))
  {
    if q == "" {
      return BadRequest(400, "Query tidak boleh kosong");
    }
    var c := CriteriaOf(q, location, jobType);
    var cleanQuery := PreprocessText(Str(q), stop);
    var hits := RankResults(rows, scores, c);
    if hits == [] {
      return Found(q, [], Some(closeMatches(cleanQuery, Titles(rows))));
    }
    return Found(q, hits, None);
  }

  /**
   * `/job/<id>`: 404 for an id outside the table, otherwise the row's
   * fields.
   */
  function GetJobDetail(rows: seq<Row>, jobId: int): (r: Detail)
    ensures r.NotFound? <==> jobId < 0 || jobId >= |rows|
    ensures r.NotFound? ==> r == NotFound(404, "Job ID tidak ditemukan")
    ensures r.Job? ==> r.title == rows[jobId].title && r.company == rows[jobId].company && r.location == rows[jobId].location
    ensures r.Job? ==> r.salary == rows[jobId].salary && r.jobType == rows[jobId].jobType && r.datePosted == rows[jobId].datePosted
    ensures r.Job? ==> r.description == rows[jobId].description && r.url == rows[jobId].url && r.logo == rows[jobId].logo
  {
    if jobId >= |rows| || jobId < 0 then NotFound(404, "Job ID tidak ditemukan")
    else
      var row := rows[jobId];
      Job(row.title, row.company, row.location, row.salary, row.jobType,
          row.datePosted, row.description, row.url, row.logo)
  }

  /** The id of every search result opens the same job: `/job/<id>` returns the fields the result showed. */
  lemma HitIdsResolve(rows: seq<Row>, scores: seq<real>, c: Criteria, hits: seq<Hit>)
    requires |scores| == |rows|
    requires HitsAreMatches(rows, scores, c, hits)
    ensures forall h :: 0 <= h < |hits| ==>
              var d := GetJobDetail(rows, hits[h].id);
              && d.Job?
              && d.title == hits[h].title && d.company == hits[h].company && d.location == hits[h].location
              && d.salary == hits[h].salary && d.jobType == hits[h].jobType && d.datePosted == hits[h].datePosted
              && d.description == hits[h].description && d.url == hits[h].url && d.logo == hits[h].logo
  {
  }
}
