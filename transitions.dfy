/**
 * The first-order Markov transition estimator: adjacent pairs of a sequence
 * of outcomes are counted into a 2x2 table of zeros, and each row of the
 * table is turned into frequencies, with the uniform row for a state that
 * was never followed by anything. Probabilities are exact reals.
 */
module Transitions {
  import opened Outcomes

  /** A table of transition counts: counts[from][to]. */
  type Counts = map<Outcome, map<Outcome, nat>>

  /** A row of the transition matrix: next outcome to probability. */
  type Row = map<Outcome, real>

  /** The transition matrix: current outcome to the row of its successors. */
  type Matrix = map<Outcome, Row>

  // ----- Counting adjacent pairs -----

  /** The number of indices i, 1 <= i < |s|, with s[i - 1] == from and s[i] == to. */
  function PairCount(s: seq<Outcome>, from: Outcome, to: Outcome): nat
  {
    if |s| < 2 then 0
    else PairCount(s[..|s| - 1], from, to) + (if s[|s| - 2] == from && s[|s| - 1] == to then 1 else 0)
  }

  /** The outgoing total of a row: how many adjacent pairs start with `from`. */
  function RowTotal(s: seq<Outcome>, from: Outcome): nat
  {
    PairCount(s, from, A) + PairCount(s, from, B)
  }

  /** The shape of the count table: the rows A and B, each with the keys A and B. */
  predicate IsTable(c: Counts)
  {
    c.Keys == {A, B} && c[A].Keys == {A, B} && c[B].Keys == {A, B}
  }

  /** The table of zeros the estimator starts from. */
  const ZeroCounts: Counts := map[A := map[A := 0, B := 0], B := map[A := 0, B := 0]]

  /** counts[prev][curr] += 1: only that entry grows, by exactly one. */
  function Increment(c: Counts, prev: Outcome, curr: Outcome): (r: Counts)
    requires IsTable(c)
    ensures IsTable(r)
    ensures forall from, to | from in r && to in r[from] ::
              r[from][to] == c[from][to] + (if from == prev && to == curr then 1 else 0)
  {
    assert prev == A || prev == B;
    assert curr == A || curr == B;
    c[prev := c[prev][curr := c[prev][curr] + 1]]
  }

  /**
   * The table of counts the estimator's first loop builds for `s`: the zero
   * table, incremented once for every adjacent pair, left to right.
   */
  function CountTable(s: seq<Outcome>): (c: Counts)
    ensures IsTable(c)
  {
    if |s| < 2 then ZeroCounts
    else Increment(CountTable(s[..|s| - 1]), s[|s| - 2], s[|s| - 1])
  }

  // ----- From counts to probabilities -----

  /** The row used for a state that has no outgoing transitions. */
  const Uniform: Row := map[A := 0.5, B := 0.5]

  /** The row for counts `countA` (to A) and `countB` (to B). */
  function Frequencies(countA: nat, countB: nat): Row
  {
    if countA + countB == 0 then Uniform
    else
      var total := (countA + countB) as real;
      map[A := countA as real / total, B := countB as real / total]
  }

  /** Both outcomes are keys of every row. */
  lemma FrequenciesKeys(countA: nat, countB: nat)
    ensures Frequencies(countA, countB).Keys == {A, B}
  {
  }

  /** Every row of a count table turned into frequencies. */
  function Normalize(c: Counts): Matrix
    requires IsTable(c)
  {
    map[A := Frequencies(c[A][A], c[A][B]), B := Frequencies(c[B][A], c[B][B])]
  }

  /**
   * The matrix the estimator produces for `s`: it always has exactly the
   * rows A and B, each with the keys A and B.
   */
  function TransitionMatrix(s: seq<Outcome>): (m: Matrix)
    ensures HasBothRows(m)
  {
    var c := CountTable(s);
    FrequenciesKeys(c[A][A], c[A][B]);
    FrequenciesKeys(c[B][A], c[B][B]);
    Normalize(c)
  }

  /** The shape of a matrix: the rows A and B, each with the keys A and B. */
  predicate HasBothRows(m: Matrix)
  {
    m.Keys == {A, B} && m[A].Keys == {A, B} && m[B].Keys == {A, B}
  }

  /** A matrix of that shape is determined by its two rows. */
  lemma MatrixOfRows(m: Matrix)
    requires HasBothRows(m)
    ensures m == map[A := m[A], B := m[B]]
  {
  }

  /** A probability distribution over the two outcomes. */
  predicate IsDistribution(r: Row)
  {
    && r.Keys == {A, B}
    && 0.0 <= r[A] <= 1.0
    && 0.0 <= r[B] <= 1.0
    && r[A] + r[B] == 1.0
  }

  /** Exactly the two rows A and B, each a distribution. */
  predicate IsStochastic(m: Matrix)
  {
    m.Keys == {A, B} && IsDistribution(m[A]) && IsDistribution(m[B])
  }

  // ----- Properties of the counts -----

  /** Index i closes an adjacent pair (from, to): s[i - 1] == from and s[i] == to. */
  predicate PairAt(s: seq<Outcome>, i: nat, from: Outcome, to: Outcome)
  {
    1 <= i < |s| && s[i - 1] == from && s[i] == to
  }

  /** The indices closing a pair (from, to). */
  function PairIndices(s: seq<Outcome>, from: Outcome, to: Outcome): set<nat>
  {
    set i: nat | i < |s| && PairAt(s, i, from, to)
  }

  /** Each count is the number of indices where the pair (from, to) occurs. */
  lemma {:induction false} PairCountIsIndexCount(s: seq<Outcome>, from: Outcome, to: Outcome)
    ensures PairCount(s, from, to) == |PairIndices(s, from, to)|
  {
    if |s| < 2 {
      assert PairIndices(s, from, to) == {};
    } else {
      var n := |s|;
      var init := s[..n - 1];
      PairCountIsIndexCount(init, from, to);
      var last := if PairAt(s, n - 1, from, to) then {n - 1} else {};
      assert PairIndices(s, from, to) == PairIndices(init, from, to) + last by {
        forall i: nat | i < n - 1 ensures PairAt(s, i, from, to) == PairAt(init, i, from, to) {
        }
      }
      assert n - 1 !in PairIndices(init, from, to);
    }
  }

  /** Appending one outcome adds the pair it closes, if any, to the counts. */
  lemma PairCountSnoc(s: seq<Outcome>, x: Outcome, from: Outcome, to: Outcome)
    ensures PairCount(s + [x], from, to)
            == PairCount(s, from, to) + (if |s| >= 1 && s[|s| - 1] == from && x == to then 1 else 0)
  {
    assert (s + [x])[..|s|] == s;
  }

  /** The four counts together are the number of adjacent pairs, max(|s| - 1, 0). */
  lemma {:induction false} PairCountsSum(s: seq<Outcome>)
    ensures PairCount(s, A, A) + PairCount(s, A, B) + PairCount(s, B, A) + PairCount(s, B, B)
            == if |s| == 0 then 0 else |s| - 1
  {
    if |s| >= 2 {
      PairCountsSum(s[..|s| - 1]);
    }
  }

  /**
   * A row's total is the number of times its state occurs anywhere but at
   * the end of the sequence: every such occurrence starts one pair.
   */
  lemma {:induction false} RowTotalIsPredecessorCount(s: seq<Outcome>, from: Outcome)
    requires |s| >= 1
    ensures RowTotal(s, from) == multiset(s[..|s| - 1])[from]
  {
    if |s| >= 2 {
      var init := s[..|s| - 1];
      RowTotalIsPredecessorCount(init, from);
      assert init[..|init| - 1] + [s[|s| - 2]] == init;
      calc {
        multiset(init)[from];
        (multiset(init[..|init| - 1]) + multiset{s[|s| - 2]})[from];
      }
    }
  }

  /** Each entry of the count table is the number of adjacent pairs (from, to). */
  lemma {:induction false} CountTableEntries(s: seq<Outcome>, from: Outcome, to: Outcome)
    ensures CountTable(s)[from][to] == PairCount(s, from, to)
  {
    if |s| >= 2 {
      CountTableEntries(s[..|s| - 1], from, to);
    }
  }

  /**
   * One step of the counting loop: the table for s[..i + 1] is the table for
   * s[..i] with the entry of the pair (s[i - 1], s[i]) incremented.
   */
  lemma CountTableStep(s: seq<Outcome>, i: nat)
    requires 1 <= i < |s|
    ensures CountTable(s[..i + 1]) == Increment(CountTable(s[..i]), s[i - 1], s[i])
  {
    assert s[..i + 1][..i] == s[..i];
  }

  /** A sequence with no adjacent pair counts nothing and yields the uniform row twice. */
  lemma ShortSequenceDefault(s: seq<Outcome>)
    requires |s| <= 1
    ensures CountTable(s) == ZeroCounts
    ensures TransitionMatrix(s) == map[A := Uniform, B := Uniform]
  {
  }

  // ----- Properties of the probabilities -----

  /** Every row is a distribution: both probabilities in [0, 1], summing to exactly 1. */
  lemma FrequenciesIsDistribution(countA: nat, countB: nat)
    ensures IsDistribution(Frequencies(countA, countB))
  {
    if countA + countB > 0 {
      var total := (countA + countB) as real;
      var r := Frequencies(countA, countB);
      assert r[A] + r[B] == (countA as real + countB as real) / total;
      assert r[A] <= 1.0 by { assert countA as real <= total; }
      assert r[B] <= 1.0 by { assert countB as real <= total; }
    }
  }

  /** A state always followed by the same outcome gets probability 1 for it and 0 for the other. */
  lemma FrequenciesDeterministic(n: nat)
    requires n > 0
    ensures Frequencies(n, 0) == map[A := 1.0, B := 0.0]
    ensures Frequencies(0, n) == map[A := 0.0, B := 1.0]
  {
    var total := n as real;
    assert (n + 0) as real == total && (0 + n) as real == total;
    assert total / total == 1.0 && 0.0 / total == 0.0;
  }

  /** Normalizing any count table yields exactly the rows A and B, both distributions. */
  lemma NormalizeIsStochastic(c: Counts)
    requires IsTable(c)
    ensures IsStochastic(Normalize(c))
  {
    FrequenciesIsDistribution(c[A][A], c[A][B]);
    FrequenciesIsDistribution(c[B][A], c[B][B]);
  }

  /**
   * Maximum-likelihood meaning of an observed row: the probability that
   * `from` is followed by `to` is the fraction of the occurrences of `from`
   * before the end of the sequence that are followed by `to`.
   */
  lemma ObservedTransitionProbability(s: seq<Outcome>, from: Outcome, to: Outcome)
    requires |s| >= 1 && multiset(s[..|s| - 1])[from] > 0
    ensures TransitionMatrix(s)[from][to]
            == PairCount(s, from, to) as real / multiset(s[..|s| - 1])[from] as real
  {
    var a, b := PairCount(s, from, A), PairCount(s, from, B);
    var k := multiset(s[..|s| - 1])[from];
    assert k == a + b by { RowTotalIsPredecessorCount(s, from); }
    var count := if to == A then a else b;
    assert count == PairCount(s, from, to);
    calc {
      TransitionMatrix(s)[from][to];
      { MatrixRow(s, from); }
      Frequencies(a, b)[to];
      { FrequenciesAt(a, b, to); }
      count as real / (a + b) as real;
    }
  }

  /** Entry `to` of an observed row is its count over the row total. */
  lemma FrequenciesAt(countA: nat, countB: nat, to: Outcome)
    requires countA + countB > 0
    ensures to in Frequencies(countA, countB)
    ensures Frequencies(countA, countB)[to]
            == (if to == A then countA else countB) as real / (countA + countB) as real
  {
  }

  /** Row `from` of a normalized table is the frequencies of that row's counts. */
  lemma NormalizeRow(c: Counts, from: Outcome)
    requires IsTable(c)
    ensures Normalize(c)[from] == Frequencies(c[from][A], c[from][B])
  {
  }

  /** Row `from` of the matrix is the frequencies of the pairs leaving `from`. */
  lemma MatrixRow(s: seq<Outcome>, from: Outcome)
    ensures TransitionMatrix(s)[from] == Frequencies(PairCount(s, from, A), PairCount(s, from, B))
  {
    NormalizeRow(CountTable(s), from);
    CountTableEntries(s, from, A);
    CountTableEntries(s, from, B);
  }

  /** A state that never occurs before the end of the sequence gets the uniform row. */
  lemma UnobservedTransitionProbability(s: seq<Outcome>, from: Outcome)
    requires |s| == 0 || multiset(s[..|s| - 1])[from] == 0
    ensures TransitionMatrix(s)[from] == Uniform
  {
    if |s| >= 1 {
      RowTotalIsPredecessorCount(s, from);
    }
    MatrixRow(s, from);
  }

  // ----- The estimator -----

  /** The first loop of update_transition_matrix: count every adjacent pair. */
  method CountTransitions(sequence: seq<Outcome>) returns (counts: Counts)
    ensures counts == CountTable(sequence)
  {
    counts := ZeroCounts;
    var n := |sequence|;
    if n < 2 {
      return;
    }
    var i := 1;
    while i < n
      invariant 1 <= i <= n
      invariant counts == CountTable(sequence[..i])
    {
      var prev, curr := sequence[i - 1], sequence[i];
      CountTableStep(sequence, i);
      counts := Increment(counts, prev, curr);
      i := i + 1;
    }
    assert sequence[..i] == sequence;
  }

  /**
   * The body of the second loop: the uniform row when the state has no
   * outgoing transitions, the observed frequencies otherwise.
   */
  method RowFrequencies(countA: nat, countB: nat) returns (row: Row)
    ensures row == Frequencies(countA, countB)
    ensures IsDistribution(row)
  {
    FrequenciesIsDistribution(countA, countB);
    var total := countA + countB;
    if total == 0 {
      row := map[A := 0.5, B := 0.5];
    } else {
      row := map[A := countA as real / total as real, B := countB as real / total as real];
    }
  }

  /** The second loop of update_transition_matrix: each state's row as frequencies. */
  method ToProbabilities(counts: Counts) returns (matrix: Matrix)
    requires IsTable(counts)
    ensures matrix == Normalize(counts)
  {
    matrix := map[];
    var states := [A, B];
    for k := 0 to |states|
      invariant forall st :: st in matrix ==> st in states[..k]
      invariant forall j :: 0 <= j < k ==>
          states[j] in matrix && matrix[states[j]] == Frequencies(counts[states[j]][A], counts[states[j]][B])
    {
      var state := states[k];
      var row := RowFrequencies(counts[state][A], counts[state][B]);
      matrix := matrix[state := row];
    }
    assert states[..|states|] == [A, B];
    assert states[0] in matrix && states[1] in matrix;
    assert matrix.Keys == {A, B};
    var expected := Normalize(counts);
    assert matrix[A] == expected[A] && matrix[B] == expected[B];
  }

  /**
   * update_transition_matrix: the transition matrix of `sequence`, which
   * always has exactly the rows A and B, each a probability distribution.
   */
  method UpdateTransitionMatrix(sequence: seq<Outcome>) returns (matrix: Matrix)
    ensures matrix == TransitionMatrix(sequence)
    ensures IsStochastic(matrix)
  {
    var counts := CountTransitions(sequence);
    matrix := ToProbabilities(counts);
    NormalizeIsStochastic(counts);
  }
}
