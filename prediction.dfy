/**
 * The next-outcome prediction: look up the row of the last outcome (with the
 * uniform row as the fallback of the lookup) and take the key of largest
 * probability, the way Python's `max(probs, key=probs.get)` picks it.
 */
module Prediction {
  import opened Outcomes
  import opened Transitions

  /** The iteration order of every row: its keys are inserted A first, then B. */
  const KeyOrder: seq<Outcome> := [A, B]

  /**
   * `max(keys, key=probs.get)`: scan the keys left to right and replace the
   * best one seen only by a strictly larger one. The result is a key of
   * largest probability, and the first such key in `keys`.
   */
  function MaxByProbability(keys: seq<Outcome>, probs: Row): (best: Outcome)
    requires |keys| > 0
    requires forall j :: 0 <= j < |keys| ==> keys[j] in probs
    ensures best in keys && best in probs
    ensures forall j :: 0 <= j < |keys| ==> probs[keys[j]] <= probs[best]
    ensures exists i :: 0 <= i < |keys| && keys[i] == best && forall j :: 0 <= j < i ==> probs[keys[j]] < probs[best]
  {
    if |keys| == 1 then keys[0]
    else
      var init := keys[..|keys| - 1];
      var last := keys[|keys| - 1];
      var rest := MaxByProbability(init, probs);
      if probs[last] > probs[rest] then
        assert forall j :: 0 <= j < |init| ==> probs[keys[j]] == probs[init[j]];
        last
      else
        assert forall j :: 0 <= j < |init| ==> keys[j] == init[j];
        rest
  }

  /**
   * `matrix.get(last, {'A': 0.5, 'B': 0.5})`: the row of `last` when the
   * matrix has one, the uniform row otherwise; a distribution whenever every
   * row of the matrix is one.
   */
  function RowFor(matrix: Matrix, last: Outcome): (r: Row)
    ensures last in matrix ==> r == matrix[last]
    ensures last !in matrix ==> r == Uniform
    ensures (forall st :: st in matrix ==> IsDistribution(matrix[st])) ==> IsDistribution(r)
  {
    if last in matrix then matrix[last] else Uniform
  }

  /** The prediction: the next outcome and the probability the row gives it. */
  datatype Forecast = Forecast(next: Outcome, probability: real)

  /**
   * The predicted next outcome after `last`: one of largest probability in
   * its row, and A when the two are equal; B only when B is strictly more
   * likely.
   */
  function Predict(matrix: Matrix, last: Outcome): (f: Forecast)
    requires RowFor(matrix, last).Keys == {A, B}
    ensures f.next in RowFor(matrix, last) && f.probability == RowFor(matrix, last)[f.next]
    ensures RowFor(matrix, last)[A] <= f.probability && RowFor(matrix, last)[B] <= f.probability
    ensures f.next == B <==> RowFor(matrix, last)[B] > RowFor(matrix, last)[A]
  {
    var probs := RowFor(matrix, last);
    var next := MaxByProbability(KeyOrder, probs);
    Forecast(next, probs[next])
  }

  /** On the estimator's matrix the lookup always finds the row: the fallback is never used. */
  lemma LookupNeverFallsBack(s: seq<Outcome>, last: Outcome)
    ensures last in TransitionMatrix(s)
    ensures RowFor(TransitionMatrix(s), last) == TransitionMatrix(s)[last]
    ensures RowFor(TransitionMatrix(s), last).Keys == {A, B}
  {
  }

  /**
   * On the estimator's matrix the forecast's probability is at least 1/2 and
   * at least that of the other outcome.
   */
  lemma ForecastIsMostLikely(s: seq<Outcome>, last: Outcome)
    ensures var m := TransitionMatrix(s);
            RowFor(m, last).Keys == {A, B} &&
            var f := Predict(m, last);
            f.probability == m[last][f.next] && 0.5 <= f.probability <= 1.0
  {
    LookupNeverFallsBack(s, last);
    NormalizeIsStochastic(CountTable(s));
  }
}
