# Match outcome predictor: a Dafny model

The program reads a column of match results, each one "A" or "B". It keeps
the valid labels and estimates a first-order Markov chain from them. It then
predicts the outcome that follows the last match. This project models three
parts of it:

- **The transition estimator** `update_transition_matrix`.
  - A first loop counts every adjacent pair of the sequence into a 2x2 table
    that starts at zero.
  - A second loop turns each row of counts into frequencies.
  - A state that is never followed by anything gets the uniform row
    `{A: 0.5, B: 0.5}`.
- **The filter** keeps only the cells that are "A" or "B", in their order.
  When nothing is left, the page reports the error instead.
- **The prediction** looks up the row of the last outcome (with the uniform
  row as the lookup's default) and takes the key with the largest
  probability, the way Python's `max(probs, key=probs.get)` does.

Modules:

- `Outcomes` holds the outcome type and the labels that stand for it.
- `Transitions` holds the estimator. The methods `CountTransitions`,
  `ToProbabilities` and `UpdateTransitionMatrix` keep the source's two loops.
  Each is proved equal to a specification function: `CountTable`,
  `Normalize` and `TransitionMatrix`. `Frequencies` specifies one row
  (streamlit_app.py:18-25) and `Normalize` the whole second loop
  (streamlit_app.py:16-25). Neither carries a contract
  of its own; the lemmas in the table below state what they mean.
- `Prediction` holds the lookup and the arg-max.
- `App` holds the filter, the analysis of a whole column (method `Analyze`)
  and worked examples.

Probabilities are exact `real` ratios `count / total`, so a row sums to
exactly 1. Python's `max` returns the first maximal key in iteration order,
and every row is built with A before B. So a tie goes to A, and B is
predicted only when it is strictly more likely. The code fixes this
tie-break, and the model follows the code.

## Model

| member | source | states |
|---|---|---|
| Outcomes.Parse | streamlit_app.py:13 | A label is a key of the count table exactly when it is "A" or "B", and it names the outcome whose label it is |
| Outcomes.ParseLabel | streamlit_app.py:13 | Every outcome's label reads back as that outcome |
| Outcomes.ToOutcomes | streamlit_app.py:53-62 | A sequence of valid labels becomes outcomes of the same length, position by position |
| Transitions.Increment | streamlit_app.py:13 | `counts[prev][curr] += 1` keeps the 2x2 shape, raises that entry by one and leaves the other three unchanged |
| Transitions.CountTable | streamlit_app.py:9-13 | The table of counts always has the rows A and B, each with the keys A and B |
| Transitions.CountTransitions | streamlit_app.py:9-13 | The counting loop builds exactly the table of counts of the sequence, including the all-zero table for length 0 or 1 |
| Transitions.CountTableStep | streamlit_app.py:11-13 | One loop iteration turns the table of `s[..i]` into the table of `s[..i+1]` |
| Transitions.CountTableEntries | streamlit_app.py:9-13 | Each entry `counts[from][to]` is the number of adjacent pairs (from, to) |
| Transitions.PairCountIsIndexCount | streamlit_app.py:11-13 | That number is the size of the set of indices i, 1 <= i < len, with `s[i-1] == from` and `s[i] == to` |
| Transitions.PairCountSnoc | streamlit_app.py:11-13 | Appending one outcome adds exactly the pair it closes to the counts |
| Transitions.PairCountsSum | streamlit_app.py:11-13 | The four counts add up to max(len - 1, 0) |
| Transitions.RowTotalIsPredecessorCount | streamlit_app.py:18 | A row's total is how often its state occurs before the last position |
| Transitions.ShortSequenceDefault | streamlit_app.py:9-20 | A sequence of length 0 or 1 counts nothing, and both of its rows are exactly `{A: 0.5, B: 0.5}` |
| Transitions.RowFrequencies | streamlit_app.py:18-25 | The body of the second loop builds the row `Frequencies` specifies, and that row is a probability distribution: both entries in [0, 1], summing to exactly 1 |
| Transitions.FrequenciesIsDistribution | streamlit_app.py:18-25 | In both branches, each probability of a row lies in [0, 1] and the two sum to exactly 1 |
| Transitions.FrequenciesAt | streamlit_app.py:22-24 | In an observed row, the entry for `to` is its count divided by the row total |
| Transitions.FrequenciesDeterministic | streamlit_app.py:22-24 | A state that is always followed by the same outcome gives that outcome probability 1 and the other 0 |
| Transitions.ToProbabilities | streamlit_app.py:16-25 | The second loop over the two states builds exactly the normalized matrix of the counts |
| Transitions.NormalizeIsStochastic | streamlit_app.py:16-25 | The normalized matrix has exactly the rows A and B, and each is a probability distribution |
| Transitions.TransitionMatrix | streamlit_app.py:16-17 | The estimator's matrix always has the rows A and B, each with the keys A and B |
| Transitions.MatrixRow | streamlit_app.py:9-25 | Row `from` of the matrix is the frequencies of the pairs that leave `from` |
| Transitions.ObservedTransitionProbability | streamlit_app.py:18-24 | For a state that occurs before the end, P(from -> to) is the number of (from, to) pairs over the number of occurrences of `from` before the end |
| Transitions.UnobservedTransitionProbability | streamlit_app.py:18-20 | A state that never occurs before the end gets the uniform row |
| Transitions.UpdateTransitionMatrix | streamlit_app.py:4-26 | The estimator returns the transition matrix of its sequence, with exactly the rows A and B, each a probability distribution |
| Prediction.MaxByProbability | streamlit_app.py:69 | `max` with a key returns a key with the largest probability, and the first such key in iteration order |
| Prediction.RowFor | streamlit_app.py:68 | The lookup with the uniform row as its default: the matrix's row of `last` when it has one, `{A: 0.5, B: 0.5}` otherwise, and a distribution whenever every row of the matrix is one |
| Prediction.Predict | streamlit_app.py:67-69 | The forecast is a key of the looked-up row with the largest probability, whose probability is the row's entry for it. It is B exactly when B is strictly more likely, so a tie goes to A |
| Prediction.LookupNeverFallsBack | streamlit_app.py:16-68 | The estimator's matrix has a row for every state, so the `.get` default is never used |
| Prediction.ForecastIsMostLikely | streamlit_app.py:67-72 | On the estimator's matrix, the forecast's probability is the matrix entry for it and lies between 1/2 and 1 |
| App.FilterValid | streamlit_app.py:53 | The filter keeps only "A" and "B" and never lengthens the column |
| App.FilterIsSubsequence | streamlit_app.py:53 | The filter's output is a subsequence of the column, so its order is kept |
| App.FilterKeepsValid | streamlit_app.py:53 | Every valid label is kept as often as it occurs, and every other value is dropped |
| App.FilterAppend | streamlit_app.py:53 | Filtering a concatenation is the concatenation of the filtered parts |
| App.FilterIdentity | streamlit_app.py:53 | A column of valid labels only passes through unchanged |
| App.FilterEmpty | streamlit_app.py:53-55 | The filter leaves nothing exactly when the column holds no valid label |
| App.Analyze | streamlit_app.py:50-72 | The analysis fails with NoValidData exactly when no cell is valid. Otherwise it reports the filtered sequence, its transition matrix, its last outcome and the forecast after it, whose probability is at least that of either outcome |
| App.SingleOutcomeExample | streamlit_app.py:9-69 | For [A], both rows are uniform and the forecast after A is A with probability 0.5 |
| App.AlternatingExample | streamlit_app.py:11-69 | For [A, B, A, B], row A is {A: 0, B: 1} and row B is {A: 1, B: 0}, so the forecast after B is A with probability 1 |
| App.FilterExample | streamlit_app.py:53 | ["A", "x", "B", "", "A"] filters to ["A", "B", "A"] |

## Left out

- The Streamlit page (title, texts, file uploader, `st.write`, `st.error`) is presentation and I/O. `Analyze` returns what the page would show; the error message becomes `Err(NoValidData)`.
- Reading the CSV with `pandas.read_csv`, its read error, and the check that the `result` column exists (streamlit_app.py:39-50) are calls into a foreign library. The column reaches the model as an arbitrary sequence of strings.
- Cells that are not strings (numbers, NaN) are not modelled separately. Under the filter they behave like any string other than "A" or "B".
- Probabilities are exact reals, not floating-point numbers. The `:.2f` rounding of the printed probability (streamlit_app.py:72) is not modelled.
- The estimator takes a sequence of outcomes, so the KeyError that `counts[prev][curr]` raises on another label (streamlit_app.py:13) cannot happen in the model. In the program it cannot happen either, because only filtered sequences reach the estimator.
- Streaks, alternation counts, a live result feed and label normalisation such as "Player A" to "A" are not part of this program's code, so they are not modelled.
