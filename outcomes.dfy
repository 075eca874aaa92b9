/** Match outcomes and the text labels that stand for them in a `result` column. */
module Outcomes {

  /** The two possible results of a match. */
  datatype Outcome = A | B

  datatype Option<T> = None | Some(value: T)

  /** The text label of an outcome, as it appears in the `result` column. */
  function Label(o: Outcome): (s: string)
    ensures IsOutcomeLabel(s)
  {
    match o
    case A => "A"
    case B => "B"
  }

  /** A cell that is one of the keys of the count table: "A" or "B". */
  predicate IsOutcomeLabel(x: string)
  {
    x == "A" || x == "B"
  }

  /**
   * Looking a label up as a key of the count table: it succeeds exactly on
   * the two labels and gives back the outcome whose label it is.
   */
  function Parse(x: string): (r: Option<Outcome>)
    ensures r.Some? <==> IsOutcomeLabel(x)
    ensures r.Some? ==> Label(r.value) == x
  {
    if x == "A" then Some(A)
    else if x == "B" then Some(B)
    else None
  }

  /** Every outcome's label parses back to that outcome. */
  lemma ParseLabel(o: Outcome)
    ensures Parse(Label(o)) == Some(o)
  {
  }

  /** Converts a sequence of valid labels into outcomes, position by position. */
  function ToOutcomes(labels: seq<string>): (s: seq<Outcome>)
    requires forall i :: 0 <= i < |labels| ==> IsOutcomeLabel(labels[i])
    ensures |s| == |labels|
    ensures forall i :: 0 <= i < |s| ==> Label(s[i]) == labels[i]
  {
    seq(|labels|, i requires 0 <= i < |labels| => Parse(labels[i]).value)
  }
}
