/** The weighted quality score of a rubric, over the reals. */
module QualityEval {
  import opened Prelude

  datatype Criterion = Criterion(id: string, description: string, weight: real)

  datatype Rubric = Rubric(id: string, version: string, criteria: seq<Criterion>, passingScore: real)

  datatype QualityError = InvalidEvidence | InvalidRubric | PassingScoreOutOfRange | WeightNotPositive | DuplicateCriterion | InvalidScore

  datatype Quality = Quality(passed: bool, score: real, failedCriteria: seq<string>)

  // ---------------------------------------------------------------- checking the rubric

  function CheckCriteria(criteria: seq<Criterion>, seen: set<string>): Result<(), QualityError>
    decreases |criteria|
  {
    if criteria == [] then Ok(())
    else
      var c := criteria[0];
      if c.id == "" || c.description == "" || !(c.weight > 0.0) then Err(WeightNotPositive)
      else if c.id in seen then Err(DuplicateCriterion)
      else CheckCriteria(criteria[1..], seen + {c.id})
  }

  function AssertRubric(rubric: Rubric): Result<(), QualityError> {
    if rubric.id == "" || rubric.version == "" || rubric.criteria == [] then Err(InvalidRubric)
    else if !(0.0 <= rubric.passingScore <= 1.0) then Err(PassingScoreOutOfRange)
    else CheckCriteria(rubric.criteria, {})
  }

  function ScoreFor(scores: map<string, real>, id: string): Result<real, QualityError> {
    if id !in scores || scores[id] < 0.0 || scores[id] > 1.0 then Err(InvalidScore) else Ok(scores[id])
  }

  // ---------------------------------------------------------------- the score

  function TotalWeight(criteria: seq<Criterion>): real {
    if criteria == [] then 0.0 else TotalWeight(criteria[..|criteria| - 1]) + criteria[|criteria| - 1].weight
  }

  /** The sum in the order of the criteria; the first missing or invalid score is an error. */
  function WeightedTotal(criteria: seq<Criterion>, scores: map<string, real>): Result<real, QualityError> {
    if criteria == [] then Ok(0.0)
    else
      var total :- WeightedTotal(criteria[..|criteria| - 1], scores);
      var score :- ScoreFor(scores, criteria[|criteria| - 1].id);
      Ok(total + score * criteria[|criteria| - 1].weight)
  }

  function Failed(criteria: seq<Criterion>, scores: map<string, real>, passing: real): seq<string> {
    if criteria == [] then []
    else
      var c := criteria[0];
      (if c.id in scores && scores[c.id] < passing then [c.id] else []) + Failed(criteria[1..], scores, passing)
  }

  function EvaluateQuality(validEvidence: bool, rubric: Rubric, scores: map<string, real>): Result<Quality, QualityError> {
    if !validEvidence then Err(InvalidEvidence)
    else
      var _ :- AssertRubric(rubric);
      var total :- WeightedTotal(rubric.criteria, scores);
      CheckedMeaning(rubric.criteria, {});
      TotalPositive(rubric.criteria);
      var score := total / TotalWeight(rubric.criteria);
      Ok(Quality(score >= rubric.passingScore, score, Failed(rubric.criteria, scores, rubric.passingScore)))
  }

  /** Why an evaluation is refused, the first fault deciding. */
  lemma RubricRefusals(rubric: Rubric)
    ensures var r := AssertRubric(rubric);
            var named := rubric.id != "" && rubric.version != "" && rubric.criteria != [];
            && (r == Err(InvalidRubric) <==> !named)
            && (r == Err(PassingScoreOutOfRange) <==> named && (rubric.passingScore < 0.0 || 1.0 < rubric.passingScore))
            && (r.Err? ==> r.error in {InvalidRubric, PassingScoreOutOfRange, WeightNotPositive, DuplicateCriterion})
  {
    CriteriaRefusals(rubric.criteria, {});
  }

  lemma {:induction false} CriteriaRefusals(criteria: seq<Criterion>, seen: set<string>)
    ensures CheckCriteria(criteria, seen).Err? ==> CheckCriteria(criteria, seen).error in {WeightNotPositive, DuplicateCriterion}
    ensures criteria != [] && (criteria[0].id == "" || criteria[0].description == "" || criteria[0].weight <= 0.0) ==>
              CheckCriteria(criteria, seen) == Err(WeightNotPositive)
    ensures criteria != [] && criteria[0].id != "" && criteria[0].description != "" && criteria[0].weight > 0.0 && criteria[0].id in seen ==>
              CheckCriteria(criteria, seen) == Err(DuplicateCriterion)
    decreases |criteria|
  {
    if criteria != [] { CriteriaRefusals(criteria[1..], seen + {criteria[0].id}); }
  }

  lemma {:induction false} FailedAre(criteria: seq<Criterion>, scores: map<string, real>, passing: real)
    ensures forall id :: id in Failed(criteria, scores, passing)
                         <==> id in scores && scores[id] < passing && exists c <- criteria :: c.id == id
    decreases |criteria|
  {
    if criteria != [] {
      FailedAre(criteria[1..], scores, passing);
      assert criteria == [criteria[0]] + criteria[1..];
    }
  }

  /** A rubric passes exactly from its passing score on, and names exactly the criteria below it. */
  lemma {:induction false} PassedMeaning(validEvidence: bool, rubric: Rubric, scores: map<string, real>)
    requires EvaluateQuality(validEvidence, rubric, scores).Ok?
    ensures var q := EvaluateQuality(validEvidence, rubric, scores).value;
            && validEvidence && (q.passed <==> rubric.passingScore <= q.score)
            && forall id :: id in q.failedCriteria
                            <==> id in scores && scores[id] < rubric.passingScore && exists c <- rubric.criteria :: c.id == id
  {
    FailedAre(rubric.criteria, scores, rubric.passingScore);
  }

  lemma ScoreRefusals(scores: map<string, real>, id: string)
    ensures ScoreFor(scores, id) == Err(InvalidScore) <==> !(id in scores && 0.0 <= scores[id] <= 1.0)
    ensures id in scores && 0.0 <= scores[id] <= 1.0 ==> ScoreFor(scores, id) == Ok(scores[id])
  {
  }

  // ---------------------------------------------------------------- what the score means

  predicate Sound(criteria: seq<Criterion>, seen: set<string>) {
    forall c <- criteria :: c.id != "" && c.description != "" && c.weight > 0.0 && c.id !in seen
  }

  predicate Distinct(criteria: seq<Criterion>) {
    forall i, j | 0 <= i < j < |criteria| :: criteria[i].id != criteria[j].id
  }

  lemma DistinctSplits(c: Criterion, rest: seq<Criterion>)
    ensures Distinct([c] + rest) <==> Distinct(rest) && forall r <- rest :: r.id != c.id
  {
    var all := [c] + rest;
    if Distinct(all) {
      forall r <- rest ensures r.id != c.id {
        var j :| 0 <= j < |rest| && rest[j] == r;
        assert all[j + 1].id != all[0].id;
      }
      forall i, j | 0 <= i < j < |rest| ensures rest[i].id != rest[j].id { assert all[i + 1].id != all[j + 1].id; }
    }
  }

  lemma {:induction false} CheckedMeaning(criteria: seq<Criterion>, seen: set<string>)
    ensures CheckCriteria(criteria, seen).Ok? <==> Sound(criteria, seen) && Distinct(criteria)
    ensures Sound(criteria, seen) ==> Positive(criteria)
    decreases |criteria|
  {
    if criteria != [] {
      var c, rest := criteria[0], criteria[1..];
      CheckedMeaning(rest, seen + {c.id});
      assert criteria == [c] + rest;
      DistinctSplits(c, rest);
    }
  }

  predicate Positive(criteria: seq<Criterion>) {
    forall c <- criteria :: c.weight > 0.0
  }

  predicate Within(criteria: seq<Criterion>, scores: map<string, real>, low: real, high: real) {
    forall c <- criteria :: c.id in scores && low <= scores[c.id] <= high
  }

  lemma Scaled(low: real, score: real, high: real, weight: real)
    requires low <= score <= high && weight > 0.0
    ensures low * weight <= score * weight <= high * weight
  {
  }

  lemma {:induction false} TotalPositive(criteria: seq<Criterion>)
    requires Positive(criteria)
    ensures TotalWeight(criteria) >= 0.0 && (criteria != [] ==> TotalWeight(criteria) > 0.0)
    decreases |criteria|
  {
    if criteria != [] {
      assert criteria[|criteria| - 1] in criteria;
      TotalPositive(criteria[..|criteria| - 1]);
    }
  }

  lemma Distributes(x: real, a: real, b: real)
    ensures x * (a + b) == x * a + x * b
  {
  }

  predicate Bounded(low: real, total: real, high: real, weight: real) {
    low * weight <= total <= high * weight
  }

  /** One more criterion keeps the total within the bounds. */
  lemma OneMore(low: real, high: real, weights: real, weight: real, total: real, score: real, allWeights: real, sum: real)
    requires Bounded(low, total, high, weights) && low <= score <= high && weight > 0.0
    requires allWeights == weights + weight && sum == total + score * weight
    ensures Bounded(low, sum, high, allWeights)
  {
    Scaled(low, score, high, weight);
    Distributes(low, weights, weight);
    Distributes(high, weights, weight);
  }

  lemma {:induction false} TotalWithin(
    criteria: seq<Criterion>, scores: map<string, real>, low: real, high: real, weight: real, total: real)
    requires Positive(criteria) && Within(criteria, scores, low, high)
    requires weight == TotalWeight(criteria) && WeightedTotal(criteria, scores) == Ok(total)
    ensures Bounded(low, total, high, weight)
    decreases |criteria|
  {
    if criteria != [] {
      var n := |criteria| - 1;
      var init, last := criteria[..n], criteria[n];
      assert last in criteria;
      var weights, sum := TotalWeight(init), WeightedTotal(init, scores).value;
      TotalWithin(init, scores, low, high, weights, sum);
      OneMore(low, high, weights, last.weight, sum, scores[last.id], weight, total);
    }
  }

  lemma Grows(x: real, y: real, weight: real)
    requires x < y && weight > 0.0
    ensures x * weight < y * weight
  {
  }

  lemma Quotient(low: real, total: real, high: real, weight: real)
    requires weight > 0.0 && Bounded(low, total, high, weight)
    ensures low <= total / weight <= high
  {
    var q := total / weight;
    assert q * weight == total;
    if q < low { Grows(q, low, weight); }
    if q > high { Grows(high, q, weight); }
  }

  /** The weighted score lies between any bounds of the criterion scores, whatever the positive weights. */
  lemma ScoreWithin(rubric: Rubric, scores: map<string, real>, low: real, high: real)
    requires AssertRubric(rubric).Ok? && Within(rubric.criteria, scores, low, high) && 0.0 <= low && high <= 1.0
    ensures var r := EvaluateQuality(true, rubric, scores);
            r.Ok? && low <= r.value.score <= high
  {
    CheckedMeaning(rubric.criteria, {});
    TotalPositive(rubric.criteria);
    ScoredMeaning(rubric.criteria, scores);
    var weight, total := TotalWeight(rubric.criteria), WeightedTotal(rubric.criteria, scores).value;
    TotalWithin(rubric.criteria, scores, low, high, weight, total);
    Quotient(low, total, high, weight);
  }

  lemma {:induction false} FailedMeaning(criteria: seq<Criterion>, scores: map<string, real>, passing: real)
    ensures Failed(criteria, scores, passing) == [] <==> forall c <- criteria :: c.id in scores ==> scores[c.id] >= passing
    decreases |criteria|
  {
    if criteria != [] {
      FailedMeaning(criteria[1..], scores, passing);
      assert criteria == [criteria[0]] + criteria[1..];
    }
  }

  lemma {:induction false} ScoredMeaning(criteria: seq<Criterion>, scores: map<string, real>)
    ensures WeightedTotal(criteria, scores).Ok? <==> Within(criteria, scores, 0.0, 1.0)
    decreases |criteria|
  {
    if criteria != [] {
      var n := |criteria| - 1;
      ScoredMeaning(criteria[..n], scores);
      assert criteria == criteria[..n] + [criteria[n]];
    }
  }

  /**
   * An evaluation without a failed criterion has passed; one that did not pass names a failed
   * criterion, and one in which every criterion failed did not pass.
   */
  lemma NoFailedCriterionPasses(rubric: Rubric, scores: map<string, real>)
    requires EvaluateQuality(true, rubric, scores).Ok?
    ensures var q := EvaluateQuality(true, rubric, scores).value;
            && 0.0 <= q.score <= 1.0
            && (q.failedCriteria == [] ==> q.passed)
            && ((forall c <- rubric.criteria :: c.id in scores && scores[c.id] < rubric.passingScore) ==> !q.passed)
  {
    ScoredMeaning(rubric.criteria, scores);
    ScoreWithin(rubric, scores, 0.0, 1.0);
    FailedMeaning(rubric.criteria, scores, rubric.passingScore);
    if Within(rubric.criteria, scores, rubric.passingScore, 1.0) { ScoreWithin(rubric, scores, rubric.passingScore, 1.0); }
    if forall c <- rubric.criteria :: c.id in scores && scores[c.id] < rubric.passingScore {
      var top := Highest(rubric.criteria, scores);
      ScoreWithin(rubric, scores, 0.0, top);
    }
  }

  /** The highest score of some criteria. */
  function Highest(criteria: seq<Criterion>, scores: map<string, real>): (top: real)
    requires criteria != [] && Within(criteria, scores, 0.0, 1.0)
    ensures Within(criteria, scores, 0.0, top) && top <= 1.0
    ensures exists c <- criteria :: scores[c.id] == top
    decreases |criteria|
  {
    assert criteria == [criteria[0]] + criteria[1..];
    var first := scores[criteria[0].id];
    if |criteria| == 1 then first
    else
      var rest := Highest(criteria[1..], scores);
      if first >= rest then first else rest
  }
}
