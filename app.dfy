/**
 * The analysis the page performs on the `result` column of an uploaded
 * file: keep the valid labels, report when none is left, otherwise build
 * the transition matrix and predict the outcome after the last one.
 */
module App {
  import opened Outcomes
  import opened Transitions
  import opened Prediction

  // ----- The filter -----

  /** `[x for x in sequence if x in ['A', 'B']]` */
  function FilterValid(column: seq<string>): (valid: seq<string>)
    ensures forall i :: 0 <= i < |valid| ==> IsOutcomeLabel(valid[i])
    ensures |valid| <= |column|
  {
    if column == [] then []
    else (if IsOutcomeLabel(column[0]) then [column[0]] else []) + FilterValid(column[1..])
  }

  /** `sub` is `s` with some of its elements removed, the rest in their order. */
  predicate IsSubsequence(sub: seq<string>, s: seq<string>)
    decreases |s|
  {
    if sub == [] then true
    else if s == [] then false
    else (sub[0] == s[0] && IsSubsequence(sub[1..], s[1..])) || IsSubsequence(sub, s[1..])
  }

  /** The filter keeps its input's order: its output is a subsequence of the column. */
  lemma {:induction false} FilterIsSubsequence(column: seq<string>)
    ensures IsSubsequence(FilterValid(column), column)
  {
    if column != [] {
      FilterIsSubsequence(column[1..]);
      var sub := FilterValid(column);
      if IsOutcomeLabel(column[0]) {
        assert sub == [column[0]] + FilterValid(column[1..]);
        assert sub[0] == column[0] && sub[1..] == FilterValid(column[1..]);
      } else {
        assert sub == FilterValid(column[1..]);
      }
    }
  }

  /** The filter keeps every valid label as often as it occurs and drops everything else. */
  lemma {:induction false} FilterKeepsValid(column: seq<string>, x: string)
    ensures multiset(FilterValid(column))[x] == if IsOutcomeLabel(x) then multiset(column)[x] else 0
  {
    if column != [] {
      FilterKeepsValid(column[1..], x);
      assert column == [column[0]] + column[1..];
      assert multiset(column) == multiset{column[0]} + multiset(column[1..]);
    }
  }

  /** Filtering a concatenation filters each part. */
  lemma {:induction false} FilterAppend(a: seq<string>, b: seq<string>)
    ensures FilterValid(a + b) == FilterValid(a) + FilterValid(b)
  {
    if a != [] {
      FilterAppend(a[1..], b);
      assert (a + b)[0] == a[0] && (a + b)[1..] == a[1..] + b;
      var head := if IsOutcomeLabel(a[0]) then [a[0]] else [];
      calc {
        FilterValid(a + b);
        head + FilterValid(a[1..] + b);
        head + (FilterValid(a[1..]) + FilterValid(b));
        (head + FilterValid(a[1..])) + FilterValid(b);
        FilterValid(a) + FilterValid(b);
      }
    } else {
      assert a + b == b;
    }
  }

  /** A column of valid labels only passes through the filter unchanged. */
  lemma {:induction false} FilterIdentity(column: seq<string>)
    requires forall i :: 0 <= i < |column| ==> IsOutcomeLabel(column[i])
    ensures FilterValid(column) == column
  {
    if column != [] {
      FilterIdentity(column[1..]);
    }
  }

  /** The filter leaves nothing exactly when the column holds no valid label. */
  lemma {:induction false} FilterEmpty(column: seq<string>)
    ensures FilterValid(column) == [] <==> forall i :: 0 <= i < |column| ==> !IsOutcomeLabel(column[i])
  {
    if column != [] {
      FilterEmpty(column[1..]);
      if IsOutcomeLabel(column[0]) {
        assert FilterValid(column)[0] == column[0];
      } else {
        assert forall i :: 1 <= i < |column| ==> column[i] == column[1..][i - 1];
      }
    }
  }

  // ----- The analysis -----

  /** The reasons an analysis reports instead of a result. */
  datatype AnalysisError = NoValidData

  datatype Result<T, E> = Ok(value: T) | Err(error: E)

  /** What the page shows for a column with valid labels. */
  datatype Report = Report(sequence: seq<string>, matrix: Matrix, last: Outcome, forecast: Forecast)

  /**
   * The page's analysis of a `result` column: NoValidData when the column
   * holds no valid label; otherwise the filtered sequence, its transition
   * matrix, its last outcome, and the forecast after that outcome, whose
   * probability is at least that of the other outcome.
   */
  method Analyze(column: seq<string>) returns (r: Result<Report, AnalysisError>)
    ensures r.Err? <==> forall i :: 0 <= i < |column| ==> !IsOutcomeLabel(column[i])
    ensures r.Ok? ==>
              var valid := FilterValid(column);
              var s := ToOutcomes(valid);
              && valid != []
              && r.value.sequence == valid
              && r.value.last == s[|s| - 1]
              && r.value.matrix == TransitionMatrix(s)
              && r.value.forecast == Predict(r.value.matrix, r.value.last)
    ensures r.Ok? ==>
              && r.value.last in r.value.matrix
              && r.value.matrix[r.value.last][A] <= r.value.forecast.probability
              && r.value.matrix[r.value.last][B] <= r.value.forecast.probability
  {
    var valid := FilterValid(column);
    FilterEmpty(column);
    if valid == [] {
      return Err(NoValidData);
    }
    var sequence := ToOutcomes(valid);
    var matrix := UpdateTransitionMatrix(sequence);
    var last := sequence[|sequence| - 1];
    LookupNeverFallsBack(sequence, last);
    var forecast := Predict(matrix, last);
    assert matrix[last][A] <= forecast.probability && matrix[last][B] <= forecast.probability;
    r := Ok(Report(valid, matrix, last, forecast));
  }

  // ----- Worked examples -----

  /** A single outcome: no pair is observed, and both rows are uniform. */
  lemma SingleOutcomeExample()
    ensures TransitionMatrix([A]) == map[A := Uniform, B := Uniform]
    ensures Predict(TransitionMatrix([A]), A) == Forecast(A, 0.5)
  {
    ShortSequenceDefault([A]);
  }

  /**
   * [A, B, A, B]: A is always followed by B and B by A, so after the last B
   * the forecast is A with probability 1.
   */
  lemma AlternatingExample()
    ensures TransitionMatrix([A, B, A, B]) == map[A := map[A := 0.0, B := 1.0], B := map[A := 1.0, B := 0.0]]
    ensures Predict(TransitionMatrix([A, B, A, B]), B) == Forecast(A, 1.0)
  {
    var s1, s2, s3 := [A], [A, B], [A, B, A];
    var s := [A, B, A, B];
    assert s2 == s1 + [B] && s3 == s2 + [A] && s == s3 + [B];
    forall from, to
      ensures PairCount(s, from, to) == if (from, to) == (A, B) then 2 else if (from, to) == (B, A) then 1 else 0
    {
      PairCountSnoc(s1, B, from, to);
      PairCountSnoc(s2, A, from, to);
      PairCountSnoc(s3, B, from, to);
    }
    MatrixRow(s, A);
    MatrixRow(s, B);
    FrequenciesDeterministic(2);
    FrequenciesDeterministic(1);
    var m := TransitionMatrix(s);
    assert m[A] == map[A := 0.0, B := 1.0] && m[B] == map[A := 1.0, B := 0.0];
    MatrixOfRows(m);
  }

  /** Invalid labels are dropped before the analysis and the valid ones keep their order. */
  lemma FilterExample()
    ensures FilterValid(["A", "x", "B", "", "A"]) == ["A", "B", "A"]
  {
  }
}
