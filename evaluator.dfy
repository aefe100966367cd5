/**
 * The RAG quality evaluator: retrieval metrics from the scored search results,
 * a persona score from keyword density, a groundedness score from lexical
 * overlap with the context, and their weighted combination with a letter grade.
 * Every score is first computed exactly (the `Raw` functions) and then passed
 * through Python's `round`, which stays a parameter.
 */
module Evaluator {
  import opened Wrappers
  import opened Numeric
  import opened PyText

  // ---------------------------------------------------------------------------
  // Retrieval metrics
  // ---------------------------------------------------------------------------

  /** One search hit: its similarity score when the point has one, and the
      `source` entry of its payload when present. */
  datatype SearchResult = SearchResult(score: Option<real>, source: Option<string>)

  datatype RetrievalMetrics = RetrievalMetrics(avgScore: real, topScore: real, sourceDiversity: real)

  /** The number of content channels (LinkedIn and YouTube) the diversity is measured against. */
  const KnownSourceCount: real := 2.0

  /** The scores of the results that carry one, in order. */
  function Scores(results: seq<SearchResult>): (s: seq<real>)
    ensures |s| <= |results|
  {
    if results == [] then []
    else (match results[0].score case Some(x) => [x] case None => []) + Scores(results[1..])
  }

  /** `payload.get('source', '')` */
  function Tag(r: SearchResult): string {
    r.source.GetOr("")
  }

  /** The distinct source tags over all results, scored or not. */
  function SourceTags(results: seq<SearchResult>): set<string> {
    set i | 0 <= i < |results| :: Tag(results[i])
  }

  function Sum(s: seq<real>): real {
    if s == [] then 0.0 else s[0] + Sum(s[1..])
  }

  /** Python's `max` of a non-empty list. */
  function MaxOf(s: seq<real>): (m: real)
    requires s != []
    ensures m in s
    ensures forall i :: 0 <= i < |s| ==> s[i] <= m
  {
    if |s| == 1 then s[0] else Max(s[0], MaxOf(s[1..]))
  }

  function MinOf(s: seq<real>): (m: real)
    requires s != []
    ensures m in s
    ensures forall i :: 0 <= i < |s| ==> m <= s[i]
  {
    if |s| == 1 then s[0] else Min(s[0], MinOf(s[1..]))
  }

  function Mean(s: seq<real>): real
    requires s != []
  {
    Sum(s) / |s| as real
  }

  /** The metrics before rounding. */
  function RawRetrieval(results: seq<SearchResult>): RetrievalMetrics {
    if results == [] then RetrievalMetrics(0.0, 0.0, 0.0)
    else
      var scores := Scores(results);
      RetrievalMetrics(
        if scores == [] then 0.0 else Mean(scores),
        if scores == [] then 0.0 else MaxOf(scores),
        |SourceTags(results)| as real / KnownSourceCount)
  }

  /** `calculate_retrieval_score`: each metric rounded to three digits. */
  function CalculateRetrievalScore(results: seq<SearchResult>, round: Rounding): RetrievalMetrics {
    var raw := RawRetrieval(results);
    RetrievalMetrics(round(raw.avgScore, 3), round(raw.topScore, 3), round(raw.sourceDiversity, 3))
  }

  /** Scores are exactly the present scores: a scoreless result adds nothing. */
  lemma {:induction false} ScoresArePresentScores(results: seq<SearchResult>)
    ensures forall x :: x in Scores(results) ==> exists i :: 0 <= i < |results| && results[i].score == Some(x)
    ensures forall i :: 0 <= i < |results| && results[i].score.Some? ==> results[i].score.value in Scores(results)
    ensures Scores(results) == [] <==> forall i :: 0 <= i < |results| ==> results[i].score.None?
  {
    if results != [] {
      ScoresArePresentScores(results[1..]);
      var head := match results[0].score case Some(x) => [x] case None => [];
      assert Scores(results) == head + Scores(results[1..]);
      forall x | x in Scores(results)
        ensures exists i :: 0 <= i < |results| && results[i].score == Some(x)
      {
        if x in head {
          assert results[0].score == Some(x);
        } else {
          assert x in Scores(results[1..]);
          var j :| 0 <= j < |results[1..]| && results[1..][j].score == Some(x);
          assert results[j + 1].score == Some(x);
        }
      }
      forall i | 0 <= i < |results| && results[i].score.Some?
        ensures results[i].score.value in Scores(results)
      {
        if i > 0 {
          assert results[1..][i - 1] == results[i];
        }
      }
      if Scores(results) == [] {
        forall i | 0 <= i < |results| ensures results[i].score.None? {
          if i > 0 {
            assert results[1..][i - 1] == results[i];
          }
        }
      }
    }
  }

  /** A sum of values that all lie in [lo, hi] lies between n*lo and n*hi. */
  lemma {:induction false} SumBetween(s: seq<real>, lo: real, hi: real)
    requires forall i :: 0 <= i < |s| ==> lo <= s[i] <= hi
    ensures |s| as real * lo <= Sum(s) <= |s| as real * hi
  {
    if s != [] {
      SumBetween(s[1..], lo, hi);
    }
  }

  /** The mean lies between the smallest and the largest score. */
  lemma MeanBetweenMinAndMax(s: seq<real>)
    requires s != []
    ensures MinOf(s) <= Mean(s) <= MaxOf(s)
  {
    SumBetween(s, MinOf(s), MaxOf(s));
    DivideBetween(Sum(s), |s| as real, MinOf(s), MaxOf(s));
  }

  /** Dividing n*lo <= total <= n*hi by a positive n. */
  lemma DivideBetween(total: real, n: real, lo: real, hi: real)
    requires n > 0.0
    requires n * lo <= total <= n * hi
    ensures lo <= total / n <= hi
  {
    var q := total / n;
    assert q * n == total;
  }

  /** Empty input, or input where no result carries a score, gives zero for the average and the top score. */
  lemma NoScoresGiveZero(results: seq<SearchResult>)
    requires forall i :: 0 <= i < |results| ==> results[i].score.None?
    ensures RawRetrieval(results).avgScore == 0.0 && RawRetrieval(results).topScore == 0.0
    ensures results == [] ==> RawRetrieval(results) == RetrievalMetrics(0.0, 0.0, 0.0)
  {
    ScoresArePresentScores(results);
  }

  /** With at least one score, the top score is the largest score (and is one of
      them), and the average lies between the smallest and the largest score. */
  lemma ScoredResultsBounds(results: seq<SearchResult>, i: nat)
    requires i < |results| && results[i].score.Some?
    ensures var m := RawRetrieval(results); var s := Scores(results);
      s != [] && m.topScore == MaxOf(s) && MinOf(s) <= m.avgScore <= MaxOf(s)
    ensures forall j :: 0 <= j < |results| && results[j].score.Some? ==>
      results[j].score.value <= RawRetrieval(results).topScore
    ensures exists j :: 0 <= j < |results| && results[j].score == Some(RawRetrieval(results).topScore)
  {
    ScoresArePresentScores(results);
    var s := Scores(results);
    MeanBetweenMinAndMax(s);
    var j :| 0 <= j < |results| && results[j].score == Some(MaxOf(s));
  }

  /** The diversity counts the distinct tags over all results (a missing tag is
      the empty tag), halved: it does not depend on the scores at all. */
  lemma DiversityIgnoresScores(a: seq<SearchResult>, b: seq<SearchResult>)
    requires |a| == |b|
    requires forall i :: 0 <= i < |a| ==> a[i].source == b[i].source
    ensures RawRetrieval(a).sourceDiversity == RawRetrieval(b).sourceDiversity
    ensures RawRetrieval(a).sourceDiversity == |SourceTags(a)| as real / 2.0
  {
    assert forall i :: 0 <= i < |a| ==> Tag(a[i]) == Tag(b[i]);
    assert SourceTags(a) == SourceTags(b);
  }

  /** One tag gives 0.5, two tags give 1.0, and the ratio is at most 1 exactly
      when at most two distinct tags occur. */
  lemma DiversityByTagCount(results: seq<SearchResult>)
    requires results != []
    ensures |SourceTags(results)| >= 1
    ensures |SourceTags(results)| == 1 ==> RawRetrieval(results).sourceDiversity == 0.5
    ensures |SourceTags(results)| == 2 ==> RawRetrieval(results).sourceDiversity == 1.0
    ensures RawRetrieval(results).sourceDiversity <= 1.0 <==> |SourceTags(results)| <= 2
  {
    assert Tag(results[0]) in SourceTags(results);
  }

  // ---------------------------------------------------------------------------
  // Persona score
  // ---------------------------------------------------------------------------

  /** The vocabulary the persona score looks for. */
  const LennyKeywords: seq<string> := [
    "framework", "metric", "data", "product-market fit",
    "growth", "retention", "funnel", "roadmap", "prioritize",
    "north star", "activation", "aha moment", "iterate"
  ]

  /** How many entries of `keywords` occur as substrings of `text`. */
  function KeywordCount(keywords: seq<string>, text: string): (n: nat)
    ensures n <= |keywords|
  {
    if keywords == [] then 0
    else (if Contains(text, keywords[0]) then 1 else 0) + KeywordCount(keywords[1..], text)
  }

  /** `len(response.split())` */
  function WordCount(s: string): nat {
    |Runs(s, IsNonSpace)|
  }

  /** The persona score before rounding, for any keyword list: keyword hits per
      100 words, divided by 5 and capped at 1. */
  function RawPersonaWith(keywords: seq<string>, response: string): real {
    if response == "" then 0.0
    else
      var k := KeywordCount(keywords, Lower(response));
      var w := WordCount(response);
      if w == 0 then 0.0
      else Min(k as real / w as real * 100.0 / 5.0, 1.0)
  }

  function RawPersona(response: string): real {
    RawPersonaWith(LennyKeywords, response)
  }

  /** `calculate_persona_score` */
  function CalculatePersonaScore(response: string, round: Rounding): real {
    round(RawPersona(response), 3)
  }

  predicate NoDuplicates(s: seq<string>) {
    forall i, j :: 0 <= i < j < |s| ==> s[i] != s[j]
  }

  /** The keyword list has no repetitions. */
  lemma LennyKeywordsDistinct()
    ensures NoDuplicates(LennyKeywords)
  {
  }

  /** The set of keywords that occur in `text`. */
  function KeywordsFound(keywords: seq<string>, text: string): set<string> {
    set k | k in keywords && Contains(text, k)
  }

  /** On a list without repetitions the count is the number of distinct keywords
      found: each keyword counts at most once however often it occurs. */
  lemma {:induction false} KeywordCountIsDistinctHits(keywords: seq<string>, text: string)
    requires NoDuplicates(keywords)
    ensures KeywordCount(keywords, text) == |KeywordsFound(keywords, text)|
  {
    if keywords != [] {
      var rest := keywords[1..];
      KeywordCountIsDistinctHits(rest, text);
      var found := KeywordsFound(keywords, text);
      var foundRest := KeywordsFound(rest, text);
      assert keywords[0] !in rest by {
        forall j | 0 <= j < |rest| ensures rest[j] != keywords[0] {
          assert rest[j] == keywords[j + 1];
        }
      }
      assert forall k :: k in keywords <==> k == keywords[0] || k in rest;
      if Contains(text, keywords[0]) {
        assert found == foundRest + {keywords[0]};
        assert keywords[0] !in foundRest;
        assert |found| == |foundRest| + 1;
        assert KeywordCount(keywords, text) == 1 + KeywordCount(rest, text);
      } else {
        assert found == foundRest;
        assert KeywordCount(keywords, text) == KeywordCount(rest, text);
      }
    }
  }

  /** There are no words exactly when the response is all whitespace. */
  lemma WordCountZeroIff(s: string)
    ensures WordCount(s) == 0 <==> forall i :: 0 <= i < |s| ==> IsSpace(s[i])
  {
    RunsEmptyIff(s, IsNonSpace);
  }

  /** The density scaling of the source, keywords per 100 words divided by 5, is 20 k / w. */
  lemma DensityScaling(k: real, w: real)
    requires w > 0.0
    ensures k / w * 100.0 / 5.0 == 20.0 * k / w
  {
    var q := k / w;
    assert q * w == k;
    assert (20.0 * k) / w == 20.0 * (k / w);
  }

  lemma QuotientAtLeastOne(a: real, w: real)
    requires w > 0.0 && a >= w
    ensures a / w >= 1.0
  {
    var q := a / w;
    assert q * w == a;
  }

  /** For a response with w > 0 words the score is min(20 k / w, 1), where k is the
      number of distinct keywords found in the lowercased response. */
  lemma PersonaFormula(keywords: seq<string>, response: string)
    requires NoDuplicates(keywords)
    requires WordCount(response) > 0
    ensures RawPersonaWith(keywords, response) ==
      Min(20.0 * |KeywordsFound(keywords, Lower(response))| as real / WordCount(response) as real, 1.0)
  {
    KeywordCountIsDistinctHits(keywords, Lower(response));
    DensityScaling(KeywordCount(keywords, Lower(response)) as real, WordCount(response) as real);
  }

  /** The persona score is in [0, 1]; it is zero for an empty or all-whitespace
      response, and zero when no keyword occurs. */
  lemma PersonaScoreBounds(keywords: seq<string>, response: string)
    ensures 0.0 <= RawPersonaWith(keywords, response) <= 1.0
    ensures (forall i :: 0 <= i < |response| ==> IsSpace(response[i])) ==> RawPersonaWith(keywords, response) == 0.0
    ensures KeywordsFound(keywords, Lower(response)) == {} ==> RawPersonaWith(keywords, response) == 0.0
  {
    WordCountZeroIff(response);
    var w := WordCount(response);
    if w > 0 && response != "" {
      var k := KeywordCount(keywords, Lower(response));
      DensityScaling(k as real, w as real);
      assert 0.0 <= 20.0 * k as real / w as real;
      if KeywordsFound(keywords, Lower(response)) == {} {
        KeywordCountZeroWhenNoneFound(keywords, Lower(response));
      }
    }
  }

  lemma {:induction false} KeywordCountZeroWhenNoneFound(keywords: seq<string>, text: string)
    requires KeywordsFound(keywords, text) == {}
    ensures KeywordCount(keywords, text) == 0
  {
    if keywords != [] {
      assert keywords[0] !in KeywordsFound(keywords, text);
      assert KeywordsFound(keywords[1..], text) <= KeywordsFound(keywords, text);
      KeywordCountZeroWhenNoneFound(keywords[1..], text);
    }
  }

  /** A density of at least 5 keyword hits per 100 words saturates the score at 1. */
  lemma PersonaSaturates(keywords: seq<string>, response: string)
    requires WordCount(response) > 0
    requires 20 * KeywordCount(keywords, Lower(response)) >= WordCount(response)
    ensures RawPersonaWith(keywords, response) == 1.0
  {
    var k := KeywordCount(keywords, Lower(response)) as real;
    var w := WordCount(response) as real;
    DensityScaling(k, w);
    QuotientAtLeastOne(20.0 * k, w);
  }

  // ---------------------------------------------------------------------------
  // Groundedness
  // ---------------------------------------------------------------------------

  /** The distinct lowercase `\w+` tokens of at least four characters. */
  function SignificantWords(s: string): set<string> {
    set w | w in Runs(Lower(s), IsWordChar) && |w| >= 4
  }

  /** The groundedness before rounding: the share of the response's significant
      words that also occur in the space-joined context. */
  function RawGroundedness(response: string, contextChunks: seq<string>): real {
    if response == "" || contextChunks == [] then 0.0
    else
      var responseWords := SignificantWords(response);
      var contextWords := SignificantWords(Join(contextChunks, " "));
      if responseWords == {} then 0.0
      else |responseWords * contextWords| as real / |responseWords| as real
  }

  /** `calculate_groundedness_score` */
  function CalculateGroundednessScore(response: string, contextChunks: seq<string>, round: Rounding): real {
    round(RawGroundedness(response, contextChunks), 3)
  }

  /** A subset is no larger, and only an equal set is as large. */
  lemma {:induction false} SubsetCardinality<T>(a: set<T>, b: set<T>)
    requires a <= b
    ensures |a| <= |b|
    ensures |a| == |b| ==> a == b
    decreases b
  {
    if b != {} {
      var x :| x in b;
      SubsetCardinality(a - {x}, b - {x});
      if x in a {
        assert |a - {x}| == |a| - 1;
        if |a| == |b| {
          assert a - {x} == b - {x};
          assert a == (a - {x}) + {x};
          assert b == (b - {x}) + {x};
        }
      } else {
        assert a - {x} == a;
        assert |a| < |b|;
      }
    }
  }

  lemma IntersectionFull<T>(a: set<T>, b: set<T>)
    ensures |a * b| <= |a|
    ensures |a * b| == |a| <==> a <= b
  {
    SubsetCardinality(a * b, a);
    if a <= b {
      assert a * b == a;
    }
  }

  /** A share of a positive whole is in [0, 1], and it is 1 only for the whole. */
  lemma RatioAtMostOne(a: real, b: real)
    requires 0.0 <= a <= b && b > 0.0
    ensures 0.0 <= a / b <= 1.0
    ensures a / b == 1.0 <==> a == b
  {
    var q := a / b;
    assert q * b == a;
  }

  /** Groundedness is in [0, 1]; it is zero for an empty response, an empty
      context list, or a response without significant words; and it is 1 exactly
      when the response has significant words and all of them occur in the context. */
  lemma GroundednessSpec(response: string, contextChunks: seq<string>)
    ensures 0.0 <= RawGroundedness(response, contextChunks) <= 1.0
    ensures (response == "" || contextChunks == [] || SignificantWords(response) == {}) ==>
      RawGroundedness(response, contextChunks) == 0.0
    ensures RawGroundedness(response, contextChunks) == 1.0 <==>
      response != "" && contextChunks != [] && SignificantWords(response) != {} &&
      SignificantWords(response) <= SignificantWords(Join(contextChunks, " "))
  {
    if response != "" && contextChunks != [] {
      var r := SignificantWords(response);
      var c := SignificantWords(Join(contextChunks, " "));
      IntersectionFull(r, c);
      if r != {} {
        RatioAtMostOne(|r * c| as real, |r| as real);
      }
    }
  }

  // ---------------------------------------------------------------------------
  // Composite score
  // ---------------------------------------------------------------------------

  datatype Grade = A | B | C | D | F

  /** Letter grade with closed lower bounds: a boundary value earns the higher grade. */
  function GradeOf(pct: real): Grade {
    if pct >= 80.0 then A
    else if pct >= 70.0 then B
    else if pct >= 60.0 then C
    else if pct >= 50.0 then D
    else F
  }

  /** Position of the grade, F lowest. */
  function Rank(g: Grade): nat {
    match g
    case F => 0
    case D => 1
    case C => 2
    case B => 3
    case A => 4
  }

  datatype Breakdown = Breakdown(retrieval: real, groundedness: real, persona: real)

  datatype RagScore = RagScore(overall: real, breakdown: Breakdown, grade: Grade)

  /** The weighted combination, on a 0-100 scale, before rounding. */
  function OverallPercent(retrieval: real, groundedness: real, persona: real): real {
    (0.4 * retrieval + 0.4 * groundedness + 0.2 * persona) * 100.0
  }

  /** `calculate_rag_score`: the grade is decided on the unrounded percentage,
      the reported numbers are the rounded ones. */
  function CalculateRagScore(metrics: RetrievalMetrics, groundedness: real, persona: real, round: Rounding): RagScore {
    var pct := OverallPercent(metrics.avgScore, groundedness, persona);
    RagScore(
      round(pct, 1),
      Breakdown(round(metrics.avgScore * 100.0, 1), round(groundedness * 100.0, 1), round(persona * 100.0, 1)),
      GradeOf(pct))
  }

  /** Each grade is earned on a half-open band closed at its lower end. */
  lemma GradeBands(pct: real)
    ensures GradeOf(pct) == A <==> pct >= 80.0
    ensures GradeOf(pct) == B <==> 70.0 <= pct < 80.0
    ensures GradeOf(pct) == C <==> 60.0 <= pct < 70.0
    ensures GradeOf(pct) == D <==> 50.0 <= pct < 60.0
    ensures GradeOf(pct) == F <==> pct < 50.0
  {
  }

  /** A higher percentage never earns a lower grade. */
  lemma GradeMonotone(x: real, y: real)
    requires x <= y
    ensures Rank(GradeOf(x)) <= Rank(GradeOf(y))
  {
  }

  /** The rounding step cannot change the grade: two roundings give the same grade. */
  lemma GradeIgnoresRounding(metrics: RetrievalMetrics, groundedness: real, persona: real, round1: Rounding, round2: Rounding)
    ensures CalculateRagScore(metrics, groundedness, persona, round1).grade ==
            CalculateRagScore(metrics, groundedness, persona, round2).grade
  {
  }

  /** Perfect inputs give 100 and an A, all-zero inputs give 0 and an F, and inputs
      in [0, 1] keep the percentage in [0, 100]. */
  lemma CompositeExtremes(metrics: RetrievalMetrics, groundedness: real, persona: real, round: Rounding)
    ensures metrics.avgScore == 1.0 && groundedness == 1.0 && persona == 1.0 ==>
      OverallPercent(metrics.avgScore, groundedness, persona) == 100.0 &&
      CalculateRagScore(metrics, groundedness, persona, round) == RagScore(round(100.0, 1), Breakdown(round(100.0, 1), round(100.0, 1), round(100.0, 1)), A)
    ensures metrics.avgScore == 0.0 && groundedness == 0.0 && persona == 0.0 ==>
      OverallPercent(metrics.avgScore, groundedness, persona) == 0.0 &&
      CalculateRagScore(metrics, groundedness, persona, round) == RagScore(round(0.0, 1), Breakdown(round(0.0, 1), round(0.0, 1), round(0.0, 1)), F)
    ensures 0.0 <= metrics.avgScore <= 1.0 && 0.0 <= groundedness <= 1.0 && 0.0 <= persona <= 1.0 ==>
      0.0 <= OverallPercent(metrics.avgScore, groundedness, persona) <= 100.0
  {
  }
}
