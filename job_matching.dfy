/**
 * Ranking a job-title corpus against a candidate's skills and reconciling
 * the best title with the candidate's own experience (fsd/app.py,
 * process_skills, find_top_job_titles, find_closest_job_title, main).
 *
 * The TF-IDF/cosine similarities are parameters: `sim` scores two documents
 * (calculate_similarity), `scorer` scores one title against a list of roles
 * with one vectoriser fitted on all of them (find_closest_job_title).
 */
module JobMatching {
  import opened Wrappers
  import opened PyString
  import opened PyDict
  import opened FieldParser

  /** A row of the job corpus: its 'Job Title' and 'Key Skills' columns. */
  datatype CorpusRow = CorpusRow(title: string, keySkills: string)

  /** calculate_similarity(user_skills, job_skills). */
  type Similarity = (string, string) -> real

  /** cosine_similarity(tfidf_matrix)[0, 1:] for [title] + roles: one score per role. */
  type RoleScorer = f: (string, seq<string>) -> seq<real>
    | forall t, roles :: |f(t, roles)| == |roles|
    witness (t: string, roles: seq<string>) => seq(|roles|, _ => 0.0)

  /** job_similarities: title -> score, in first-insertion order. */
  type Scores = Dict<string, real>

  // ---------------------------------------------------------------------
  // process_skills

  /** ', '.join(skills): the candidate's document. */
  function ProcessSkills(skills: seq<string>): string
  {
    Join(skills, ", ")
  }

  /** The ", "-joined pieces after the first, each with its separating space in front. */
  function SpacedTail(xs: seq<string>): (r: seq<string>)
    ensures |r| == |xs|
    ensures forall i :: 0 <= i < |xs| ==> r[i] == " " + xs[i]
  {
    seq(|xs|, i requires 0 <= i < |xs| => " " + xs[i])
  }

  lemma {:induction false} JoinCommaSpace(xs: seq<string>)
    requires |xs| >= 1
    ensures Join(xs, ", ") == Join([xs[0]] + SpacedTail(xs[1..]), [','])
  {
    if |xs| > 1 {
      var rest := xs[1..];
      JoinCommaSpace(rest);
      var ys := [rest[0]] + SpacedTail(rest[1..]);
      JoinConsHead(" ", ys, [',']);
      assert [" " + ys[0]] + ys[1..] == SpacedTail(rest);
      var zs := [xs[0]] + SpacedTail(rest);
      assert zs[1..] == SpacedTail(rest);
      assert Join(zs, [',']) == xs[0] + [','] + Join(SpacedTail(rest), [',']);
    }
  }

  /** Stripping undoes putting one strippable character in front of a stripped string. */
  lemma StripConsStripped(c: char, x: string, cs: set<char>)
    requires c in cs && IsStripped(x, cs)
    ensures Strip([c] + x, cs) == x
  {
    assert ([c] + x)[1..] == x;
    assert StripLeft([c] + x, cs) == StripLeft(x, cs);
  }

  /** Stripping each ", "-joined piece gives back the skill it came from. */
  lemma SpacedPiecesStrip(skills: seq<string>)
    requires |skills| >= 1
    requires forall i :: 0 <= i < |skills| ==> IsStripped(skills[i], Whitespace)
    ensures var pieces := [skills[0]] + SpacedTail(skills[1..]);
            forall i :: 0 <= i < |skills| ==> Strip(pieces[i], Whitespace) == skills[i]
  {
    var pieces := [skills[0]] + SpacedTail(skills[1..]);
    forall i | 0 <= i < |skills|
      ensures Strip(pieces[i], Whitespace) == skills[i]
    {
      if i > 0 {
        assert pieces[i] == " " + skills[i];
        assert ' ' in Whitespace;
        StripConsStripped(' ', skills[i], Whitespace);
      }
    }
  }

  /**
   * Parsing the Skills list back out of the candidate's document gives the
   * skills again, provided none is blank-padded or holds a ','.
   */
  lemma SkillsRoundTrip(skills: seq<string>)
    requires |skills| >= 1
    requires forall i :: 0 <= i < |skills| ==> IsStripped(skills[i], Whitespace) && ',' !in skills[i]
    ensures ListField(ProcessSkills(skills)) == skills
  {
    var pieces := [skills[0]] + SpacedTail(skills[1..]);
    JoinCommaSpace(skills);
    assert forall i :: 0 <= i < |pieces| ==> ',' !in pieces[i];
    SplitJoin(pieces, ',');
    SpacedPiecesStrip(skills);
  }

  // ---------------------------------------------------------------------
  // sorted(job_similarities, key=job_similarities.get, reverse=True)

  /**
   * The order of a stable descending sort on scores sc: a higher score
   * first, equal scores in their original order.
   */
  predicate Before(sc: seq<real>, i: nat, j: nat)
    requires i < |sc| && j < |sc|
  {
    sc[i] > sc[j] || (sc[i] == sc[j] && i < j)
  }

  predicate InRange(xs: seq<nat>, n: nat) {
    forall k :: 0 <= k < |xs| ==> xs[k] < n
  }

  predicate SortedBy(sc: seq<real>, xs: seq<nat>)
    requires InRange(xs, |sc|)
  {
    forall a, b :: 0 <= a < b < |xs| ==> Before(sc, xs[a], xs[b])
  }

  /** 0, 1, ..., n - 1 */
  function Range(n: nat): (r: seq<nat>)
    ensures |r| == n
    ensures forall k :: 0 <= k < n ==> r[k] == k
  {
    seq(n, k requires 0 <= k < n => k as nat)
  }

  /** Puts index i into xs just before the first index it comes Before. */
  function Insert(sc: seq<real>, i: nat, xs: seq<nat>): (r: seq<nat>)
    requires i < |sc| && InRange(xs, |sc|)
    ensures InRange(r, |sc|)
    ensures multiset(r) == multiset(xs) + multiset{i}
    decreases |xs|
  {
    if xs == [] then [i]
    else if Before(sc, i, xs[0]) then [i] + xs
    else
      assert xs == [xs[0]] + xs[1..];
      [xs[0]] + Insert(sc, i, xs[1..])
  }

  /** The indices 0 .. n - 1 of sc in sorted order. */
  function SortIndices(sc: seq<real>, n: nat): (r: seq<nat>)
    requires n <= |sc|
    ensures InRange(r, |sc|)
    ensures multiset(r) == multiset(Range(n))
  {
    if n == 0 then []
    else
      assert Range(n) == Range(n - 1) + [n - 1];
      Insert(sc, n - 1, SortIndices(sc, n - 1))
  }

  lemma BeforeTransitive(sc: seq<real>, i: nat, j: nat, k: nat)
    requires i < |sc| && j < |sc| && k < |sc|
    requires Before(sc, i, j) && Before(sc, j, k)
    ensures Before(sc, i, k)
  {
  }

  lemma {:induction false} InsertSorted(sc: seq<real>, i: nat, xs: seq<nat>)
    requires i < |sc| && InRange(xs, |sc|)
    requires SortedBy(sc, xs) && i !in xs
    ensures SortedBy(sc, Insert(sc, i, xs))
    decreases |xs|
  {
    if xs != [] {
      if Before(sc, i, xs[0]) {
        forall b | 0 < b < |xs| ensures Before(sc, i, xs[b]) {
          BeforeTransitive(sc, i, xs[0], xs[b]);
        }
      } else {
        var tail := xs[1..];
        assert forall b :: 0 <= b < |tail| ==> tail[b] == xs[b + 1];
        InsertSorted(sc, i, tail);
        var r := Insert(sc, i, xs);
        var rest := Insert(sc, i, tail);
        assert r == [xs[0]] + rest;
        forall b | 0 <= b < |rest| ensures Before(sc, xs[0], rest[b]) {
          assert rest[b] in multiset(rest);
          if rest[b] != i {
            assert rest[b] in multiset(tail);
            var c :| 0 <= c < |tail| && tail[c] == rest[b];
          }
        }
      }
    }
  }

  lemma {:induction false} SortIndicesSorted(sc: seq<real>, n: nat)
    requires n <= |sc|
    ensures SortedBy(sc, SortIndices(sc, n))
    ensures forall k :: 0 <= k < |SortIndices(sc, n)| ==> SortIndices(sc, n)[k] < n
  {
    var r := SortIndices(sc, n);
    forall k | 0 <= k < |r| ensures r[k] < n {
      assert r[k] in multiset(Range(n));
    }
    if n > 0 {
      var xs := SortIndices(sc, n - 1);
      SortIndicesSorted(sc, n - 1);
      assert n - 1 !in xs;
      InsertSorted(sc, n - 1, xs);
    }
  }

  /** A sorted index sequence holds each index at most once. */
  lemma SortedDistinct(sc: seq<real>, xs: seq<nat>)
    requires InRange(xs, |sc|) && SortedBy(sc, xs)
    ensures Distinct(xs)
  {
  }

  /** The scores of d, in its iteration order. */
  function ScoreList(d: Scores): (sc: seq<real>)
    ensures |sc| == |d|
    ensures forall i :: 0 <= i < |d| ==> sc[i] == d[i].1
  {
    seq(|d|, i requires 0 <= i < |d| => d[i].1)
  }

  /** sorted(d, key=d.get, reverse=True): the keys of d, best score first, ties in dict order. */
  function Ranked(d: Scores): (r: seq<string>)
    ensures |r| == |d|
  {
    var order := SortIndices(ScoreList(d), |d|);
    assert |order| == |multiset(order)| == |Range(|d|)|;
    seq(|order|, k requires 0 <= k < |order| => d[order[k]].0)
  }

  /** Key s of d comes before key t in the sort: a higher score, or an equal score and an earlier place in d. */
  predicate RankedBefore(d: Scores, s: string, t: string) {
    && s in Keys(d) && t in Keys(d)
    && var vs, vt := Get(d, s).value, Get(d, t).value;
       vs > vt || (vs == vt && Position(d, s) < Position(d, t))
  }

  /** The k-th key of the sort stands at the k-th sorted index of d, and carries that index's score. */
  lemma RankedEntries(d: Scores)
    requires Valid(d)
    ensures var order := SortIndices(ScoreList(d), |d|);
            forall k :: 0 <= k < |Ranked(d)| ==>
              && Ranked(d)[k] == d[order[k]].0
              && Position(d, Ranked(d)[k]) == order[k]
              && Get(d, Ranked(d)[k]) == Some(ScoreList(d)[order[k]])
  {
    var order := SortIndices(ScoreList(d), |d|);
    forall k | 0 <= k < |Ranked(d)|
      ensures Position(d, Ranked(d)[k]) == order[k] && Get(d, Ranked(d)[k]) == Some(ScoreList(d)[order[k]])
    {
      GetAt(d, order[k]);
    }
  }

  /** Every key of d is among the sorted keys. */
  lemma RankedCovers(d: Scores, t: string)
    requires Valid(d) && t in Keys(d)
    ensures t in Ranked(d)
  {
    var order := SortIndices(ScoreList(d), |d|);
    var i := Position(d, t);
    assert i == Range(|d|)[i];
    assert i in multiset(order);
    var k :| 0 <= k < |order| && order[k] == i;
    assert Ranked(d)[k] == t;
  }

  /** The sort returns every key of d once, in descending order of score, ties in dict order. */
  lemma RankedSpec(d: Scores)
    requires Valid(d)
    ensures Distinct(Ranked(d))
    ensures forall t :: t in Ranked(d) <==> t in Keys(d)
    ensures forall a, b :: 0 <= a < b < |Ranked(d)| ==> RankedBefore(d, Ranked(d)[a], Ranked(d)[b])
  {
    var sc := ScoreList(d);
    var order := SortIndices(sc, |d|);
    SortIndicesSorted(sc, |d|);
    SortedDistinct(sc, order);
    RankedEntries(d);
    forall t | t in Keys(d) ensures t in Ranked(d) {
      RankedCovers(d, t);
    }
  }

  // ---------------------------------------------------------------------
  // find_top_job_titles

  /** The 'Job Title' column of the corpus, row by row. */
  function Titles(rows: seq<CorpusRow>): (ts: seq<string>)
    ensures |ts| == |rows|
    ensures forall i :: 0 <= i < |rows| ==> ts[i] == rows[i].title
  {
    seq(|rows|, i requires 0 <= i < |rows| => rows[i].title)
  }

  lemma TitlesSnoc(rows: seq<CorpusRow>)
    requires rows != []
    ensures Titles(rows) == Titles(rows[..|rows| - 1]) + [rows[|rows| - 1].title]
  {
  }

  /** job_similarities after the loop has seen the given rows: each row's score stored under its title. */
  function ScoreRows(user: string, rows: seq<CorpusRow>, sim: Similarity): (r: Scores)
    ensures Valid(r)
  {
    if rows == [] then []
    else
      var row := rows[|rows| - 1];
      Put(ScoreRows(user, rows[..|rows| - 1], sim), row.title, sim(user, row.keySkills))
  }

  /** The 'Key Skills' of the LAST row with title t, None when no row has it. */
  function LastRowSkills(rows: seq<CorpusRow>, t: string): (r: Option<string>)
    ensures r.Some? <==> t in Titles(rows)
  {
    if rows == [] then None
    else
      TitlesSnoc(rows);
      if rows[|rows| - 1].title == t then Some(rows[|rows| - 1].keySkills)
      else LastRowSkills(rows[..|rows| - 1], t)
  }

  /** The corpus titles become the scores' keys once each, in the order they first appear. */
  lemma {:induction false} ScoreRowsKeys(user: string, rows: seq<CorpusRow>, sim: Similarity)
    ensures Keys(ScoreRows(user, rows, sim)) == Dedup(Titles(rows))
  {
    if rows != [] {
      var n := |rows| - 1;
      ScoreRowsKeys(user, rows[..n], sim);
      TitlesSnoc(rows);
      var ts := Titles(rows);
      assert ts[..n] == Titles(rows[..n]);
    }
  }

  /** A title's score is the similarity of the user's document and the last row with that title. */
  lemma {:induction false} ScoreRowsLookup(user: string, rows: seq<CorpusRow>, t: string, sim: Similarity)
    ensures Get(ScoreRows(user, rows, sim), t)
            == match LastRowSkills(rows, t)
               case None => None
               case Some(skills) => Some(sim(user, skills))
  {
    if rows != [] {
      ScoreRowsLookup(user, rows[..|rows| - 1], t, sim);
    }
  }

  /** list[:n] for any int n (a negative n drops that many from the end). */
  function PyPrefix<T>(s: seq<T>, n: int): (r: seq<T>)
    ensures |r| == if n >= 0 then Min(n, |s|) else Max(0, |s| + n)
    ensures r == s[..|r|]
  {
    if n >= 0 then s[..Min(n, |s|)] else s[..Max(0, |s| + n)]
  }

  function Min(a: int, b: int): int { if a <= b then a else b }
  function Max(a: int, b: int): int { if a >= b then a else b }

  /** find_top_job_titles(user_skills, data, top_n) as a function of its inputs. */
  function TopJobTitles(userSkills: seq<string>, rows: seq<CorpusRow>, topN: int, sim: Similarity): seq<string>
  {
    PyPrefix(Ranked(ScoreRows(ProcessSkills(userSkills), rows, sim)), topN)
  }

  /** find_top_job_titles: the loop that fills job_similarities, then the sort and the top-N slice. */
  method FindTopJobTitles(userSkills: seq<string>, data: seq<CorpusRow>, topN: int, sim: Similarity)
    returns (topJobTitles: seq<string>)
    ensures topJobTitles == TopJobTitles(userSkills, data, topN, sim)
  {
    var jobSimilarities: Scores := [];
    var userSkillsProcessed := ProcessSkills(userSkills);
    for i := 0 to |data|
      invariant jobSimilarities == ScoreRows(userSkillsProcessed, data[..i], sim)
    {
      var row := data[i];
      var similarity := sim(userSkillsProcessed, row.keySkills);
      assert data[..i + 1][..i] == data[..i];
      jobSimilarities := Put(jobSimilarities, row.title, similarity);
    }
    assert data[..|data|] == data;
    topJobTitles := PyPrefix(Ranked(jobSimilarities), topN);
  }

  /** The score find_top_job_titles gives a corpus title: its similarity with the LAST row of that title. */
  function TitleScore(user: string, rows: seq<CorpusRow>, t: string, sim: Similarity): real
    requires t in Titles(rows)
  {
    sim(user, LastRowSkills(rows, t).value)
  }

  /**
   * Corpus title s ranks before t: a higher score, or an equal score and an
   * earlier first appearance in the corpus.
   */
  predicate RanksBefore(user: string, rows: seq<CorpusRow>, sim: Similarity, s: string, t: string) {
    && s in Titles(rows) && t in Titles(rows)
    && var vs, vt := TitleScore(user, rows, s, sim), TitleScore(user, rows, t, sim);
       vs > vt || (vs == vt && IndexOf(Titles(rows), s) < IndexOf(Titles(rows), t))
  }

  lemma RankedBeforeInCorpus(user: string, rows: seq<CorpusRow>, sim: Similarity, s: string, t: string)
    requires RankedBefore(ScoreRows(user, rows, sim), s, t)
    ensures RanksBefore(user, rows, sim, s, t)
  {
    var titles := Titles(rows);
    ScoreRowsKeys(user, rows, sim);
    ScoreRowsLookup(user, rows, s, sim);
    ScoreRowsLookup(user, rows, t, sim);
    DedupOrder(titles, s, t);
  }

  /** The ranking holds every corpus title once and nothing else. */
  lemma RankedTitles(user: string, rows: seq<CorpusRow>, sim: Similarity)
    ensures var ranked := Ranked(ScoreRows(user, rows, sim));
            && Distinct(ranked)
            && |ranked| == |Dedup(Titles(rows))|
            && forall t :: t in ranked <==> t in Titles(rows)
  {
    var d := ScoreRows(user, rows, sim);
    ScoreRowsKeys(user, rows, sim);
    RankedSpec(d);
  }

  /** A prefix of a sequence without repeats has none, and holds only elements of the sequence. */
  lemma PrefixDistinct<T>(s: seq<T>, n: int)
    requires Distinct(s)
    ensures Distinct(PyPrefix(s, n))
    ensures forall x :: x in PyPrefix(s, n) ==> x in s
  {
    var r := PyPrefix(s, n);
    assert forall i :: 0 <= i < |r| ==> r[i] == s[i];
  }

  /**
   * find_top_job_titles returns min(top_n, number of distinct titles)
   * titles, no title twice, each one a corpus title.
   */
  lemma TopJobTitlesContents(userSkills: seq<string>, rows: seq<CorpusRow>, topN: int, sim: Similarity)
    ensures var top := TopJobTitles(userSkills, rows, topN, sim);
            && (topN >= 0 ==> |top| == Min(topN, |Dedup(Titles(rows))|))
            && Distinct(top)
            && forall t :: t in top ==> t in Titles(rows)
  {
    var user := ProcessSkills(userSkills);
    RankedTitles(user, rows, sim);
    PrefixDistinct(Ranked(ScoreRows(user, rows, sim)), topN);
  }

  /** The sorted keys of the scores, read as corpus titles, come in ranking order. */
  lemma RankedInCorpusOrder(user: string, rows: seq<CorpusRow>, sim: Similarity)
    ensures var ranked := Ranked(ScoreRows(user, rows, sim));
            forall a, b :: 0 <= a < b < |ranked| ==> RanksBefore(user, rows, sim, ranked[a], ranked[b])
  {
    var d := ScoreRows(user, rows, sim);
    var ranked := Ranked(d);
    RankedSpec(d);
    forall a, b | 0 <= a < b < |ranked| ensures RanksBefore(user, rows, sim, ranked[a], ranked[b]) {
      RankedBeforeInCorpus(user, rows, sim, ranked[a], ranked[b]);
    }
  }

  /**
   * The titles come in ranking order (higher score first, ties in order of
   * first appearance in the corpus), and every corpus title left out ranks
   * after all of them.
   */
  lemma TopJobTitlesOrder(userSkills: seq<string>, rows: seq<CorpusRow>, topN: int, sim: Similarity)
    ensures var user, top := ProcessSkills(userSkills), TopJobTitles(userSkills, rows, topN, sim);
            && (forall a, b :: 0 <= a < b < |top| ==> RanksBefore(user, rows, sim, top[a], top[b]))
            && forall t, a :: t in Titles(rows) && t !in top && 0 <= a < |top| ==> RanksBefore(user, rows, sim, top[a], t)
  {
    var user := ProcessSkills(userSkills);
    var ranked := Ranked(ScoreRows(user, rows, sim));
    var top := TopJobTitles(userSkills, rows, topN, sim);
    RankedTitles(user, rows, sim);
    RankedInCorpusOrder(user, rows, sim);
    assert forall k :: 0 <= k < |top| ==> top[k] == ranked[k];
    forall t, a | t in Titles(rows) && t !in top && 0 <= a < |top| ensures RanksBefore(user, rows, sim, top[a], t) {
      var c :| 0 <= c < |ranked| && ranked[c] == t;
      assert c >= |top|;
    }
  }

  // ---------------------------------------------------------------------
  // find_closest_job_title and main

  datatype MatchError =
    /** top_job_titles[0] on an empty ranking (an empty corpus): IndexError */
    | NoJobTitles
    /** similarities.argmax() on no roles at all: ValueError */
    | EmptyExperience

  /** main's result: predicted title, closest own role, its years, and the similarity score. */
  datatype Match = Match(predicted: string, closest: string, years: real, score: real)

  /** main asks find_top_job_titles for its default top_n. */
  const TopN: int := 10

  /** Below this similarity the candidate's roles are taken as unrelated to the predicted title. */
  const Threshold: real := 0.2

  /** Index i holds the maximum of s, and no earlier index does (numpy's argmax). */
  predicate IsFirstMax(s: seq<real>, i: int) {
    && 0 <= i < |s|
    && (forall j :: 0 <= j < |s| ==> s[j] <= s[i])
    && (forall j :: 0 <= j < i ==> s[j] < s[i])
  }

  /** An argmax is determined by the scores. */
  lemma FirstMaxUnique(s: seq<real>, i: int, j: int)
    requires IsFirstMax(s, i) && IsFirstMax(s, j)
    ensures i == j
  {
    assert s[i] == s[j];
  }

  /** similarities.argmax() on a non-empty array. */
  function ArgMax(s: seq<real>): (r: nat)
    requires |s| > 0
    ensures IsFirstMax(s, r)
  {
    if |s| == 1 then 0
    else
      var m := ArgMax(s[..|s| - 1]);
      if s[|s| - 1] > s[m] then |s| - 1 else m
  }

  /**
   * find_closest_job_title: the first role of the experience dict whose
   * similarity with the predicted title is maximal, and that similarity.
   */
  function FindClosestJobTitle(predicted: string, experience: Scores, scorer: RoleScorer)
    : (r: Result<(string, real), MatchError>)
    ensures r.Err? <==> experience == []
    ensures r.Err? ==> r.error == EmptyExperience
    ensures r.Ok? ==> exists i :: IsFirstMax(scorer(predicted, Keys(experience)), i)
                                  && r.value == (experience[i].0, scorer(predicted, Keys(experience))[i])
  {
    var roles := Keys(experience);
    var similarities := scorer(predicted, roles);
    if similarities == [] then Err(EmptyExperience)
    else
      var closestIdx := ArgMax(similarities);
      Ok((roles[closestIdx], similarities[closestIdx]))
  }

  /**
   * main(user_skills, user_experience_dict) on the given corpus: predict the
   * best-ranked title, then take the candidate's closest role and its years,
   * falling back to the predicted title and 0 years when the closest role is
   * "" or scores below the threshold.
   */
  function MatchCandidate(userSkills: seq<string>, experience: Scores, rows: seq<CorpusRow>,
                          sim: Similarity, scorer: RoleScorer): Result<Match, MatchError>
  {
    var topJobTitles := TopJobTitles(userSkills, rows, TopN, sim);
    if topJobTitles == [] then Err(NoJobTitles)
    else
      var predicted := topJobTitles[0];
      var closest := FindClosestJobTitle(predicted, experience, scorer);
      if closest.Err? then Err(closest.error)
      else
        var closestJobTitle, similarityScore := closest.value.0, closest.value.1;
        if closestJobTitle == [] || similarityScore < Threshold then
          Ok(Match(predicted, predicted, 0.0, similarityScore))
        else
          Ok(Match(predicted, closestJobTitle, Get(experience, closestJobTitle).GetOr(0.0), similarityScore))
  }

  /** main fails exactly on an empty corpus or, failing that, on an empty experience dict. */
  lemma MatchCandidateErrors(userSkills: seq<string>, experience: Scores, rows: seq<CorpusRow>,
                             sim: Similarity, scorer: RoleScorer)
    ensures MatchCandidate(userSkills, experience, rows, sim, scorer) == Err(NoJobTitles) <==> rows == []
    ensures rows != [] && experience == [] ==> MatchCandidate(userSkills, experience, rows, sim, scorer) == Err(EmptyExperience)
    ensures rows != [] && experience != [] ==> MatchCandidate(userSkills, experience, rows, sim, scorer).Ok?
  {
    TopJobTitlesContents(userSkills, rows, TopN, sim);
    if rows != [] {
      assert rows[0].title in Titles(rows);
      assert rows[0].title in Dedup(Titles(rows));
    }
  }

  /** The predicted title is a corpus title that ranks before every other corpus title. */
  lemma MatchCandidatePredicted(userSkills: seq<string>, experience: Scores, rows: seq<CorpusRow>,
                                sim: Similarity, scorer: RoleScorer)
    requires MatchCandidate(userSkills, experience, rows, sim, scorer).Ok?
    ensures var p := MatchCandidate(userSkills, experience, rows, sim, scorer).value.predicted;
            && p in Titles(rows)
            && forall t :: t in Titles(rows) && t != p ==> RanksBefore(ProcessSkills(userSkills), rows, sim, p, t)
  {
    var top := TopJobTitles(userSkills, rows, TopN, sim);
    TopJobTitlesContents(userSkills, rows, TopN, sim);
    TopJobTitlesOrder(userSkills, rows, TopN, sim);
    forall t | t in Titles(rows) && t != top[0] ensures RanksBefore(ProcessSkills(userSkills), rows, sim, top[0], t) {
      if t in top {
        var b :| 0 <= b < |top| && top[b] == t;
      }
    }
  }

  /**
   * The score is the best similarity between the predicted title and the
   * candidate's roles. The first role with that score becomes the closest
   * title, with its years, unless it is "" or scores below the threshold:
   * then the predicted title stands in for it with 0 years.
   */
  lemma MatchCandidateReconciles(userSkills: seq<string>, experience: Scores, rows: seq<CorpusRow>,
                                 sim: Similarity, scorer: RoleScorer)
    requires Valid(experience)
    requires MatchCandidate(userSkills, experience, rows, sim, scorer).Ok?
    ensures var m := MatchCandidate(userSkills, experience, rows, sim, scorer).value;
            var sims := scorer(m.predicted, Keys(experience));
            exists i :: && IsFirstMax(sims, i)
                        && m.score == sims[i]
                        && if experience[i].0 == [] || sims[i] < Threshold
                           then m.closest == m.predicted && m.years == 0.0
                           else m.closest == experience[i].0 && m.years == experience[i].1
  {
    var m := MatchCandidate(userSkills, experience, rows, sim, scorer).value;
    var sims := scorer(m.predicted, Keys(experience));
    var i :| IsFirstMax(sims, i)
             && FindClosestJobTitle(m.predicted, experience, scorer).value == (experience[i].0, sims[i]);
    GetAt(experience, i);
  }
}
