/**
 * The two thresholding passes of the review pipeline: review polarity to a
 * review score in {-1, 0, 1} and review subjectivity to a class in {0, 1}.
 * Both are written with numpy's `select`, so that is modelled first.
 * Scores are opaque reals: the passes only compare them.
 */
module Classify {

  /**
   * numpy's `select(condlist, choicelist, default)` for one element: the
   * choice paired with the FIRST condition that holds, or `default` when no
   * condition holds. numpy refuses lists of different lengths, and also an
   * empty list, which the script never passes (the model returns the default
   * there).
   */
  function Select(conds: seq<bool>, choices: seq<int>, default: int): (r: int)
    requires |conds| == |choices|
    ensures forall i :: 0 <= i < |conds| && conds[i] && (forall j :: 0 <= j < i ==> !conds[j]) ==> r == choices[i]
    ensures (forall i :: 0 <= i < |conds| ==> !conds[i]) ==> r == default
  {
    if conds == [] then default
    else if conds[0] then choices[0]
    else
      var r := Select(conds[1..], choices[1..], default);
      assert forall i :: 1 <= i < |conds| ==> conds[1..][i - 1] == conds[i] && choices[1..][i - 1] == choices[i];
      r
  }

  /** The three conditions of the polarity pass, in the order they are listed. */
  function PolarityConditions(p: real, lim1: real, lim2: real): seq<bool>
  {
    [p < lim1, lim1 <= p && p <= lim2, p > lim2]
  }

  /** Review score of a review polarity `p` against the lower and upper limits. */
  function PolarityScore(p: real, lim1: real, lim2: real): (r: int)
    ensures r == -1 || r == 0 || r == 1
  {
    Select(PolarityConditions(p, lim1, lim2), [-1, 0, 1], 0)
  }

  /** The two conditions of the subjectivity pass. */
  function SubjectivityConditions(s: real, limit: real): seq<bool>
  {
    [s < limit, s >= limit]
  }

  /** Subjectivity class of a review subjectivity `s`: 0 objective, 1 subjective. */
  function SubjectivityClass(s: real, limit: real): (r: int)
    ensures r == 0 || r == 1
  {
    Select(SubjectivityConditions(s, limit), [0, 1], 0)
  }

  /**
   * With ordered limits the three bands partition the reals: below `lim1`
   * is negative, the closed interval [lim1, lim2] is neutral (both
   * boundaries included) and above `lim2` is positive.
   */
  lemma PolarityBands(p: real, lim1: real, lim2: real)
    requires lim1 <= lim2
    ensures PolarityScore(p, lim1, lim2) == -1 <==> p < lim1
    ensures PolarityScore(p, lim1, lim2) == 0 <==> lim1 <= p <= lim2
    ensures PolarityScore(p, lim1, lim2) == 1 <==> lim2 < p
  {
    var c := PolarityConditions(p, lim1, lim2);
    if p < lim1 {
      assert c[0];
    } else if p <= lim2 {
      assert !c[0] && c[1];
    } else {
      assert !c[0] && !c[1] && c[2];
    }
  }

  /**
   * With crossed limits (`lim1 > lim2`) the first-match rule still gives one
   * score: everything below `lim1` is negative, even above `lim2`, and the
   * neutral band is empty.
   */
  lemma PolarityCrossedLimits(p: real, lim1: real, lim2: real)
    requires lim2 < lim1
    ensures PolarityScore(p, lim1, lim2) != 0
    ensures PolarityScore(p, lim1, lim2) == -1 <==> p < lim1
  {
    var c := PolarityConditions(p, lim1, lim2);
    if p < lim1 {
      assert c[0];
    } else {
      assert !c[0] && !c[1] && c[2];
    }
  }

  /** Some polarity condition always holds, so the default of `select` is never what decides. */
  lemma PolarityDefaultUnused(p: real, lim1: real, lim2: real)
    ensures exists i :: 0 <= i < 3 && PolarityConditions(p, lim1, lim2)[i]
  {
    var c := PolarityConditions(p, lim1, lim2);
    if p < lim1 {
      assert c[0];
    } else if p <= lim2 {
      assert c[1];
    } else {
      assert c[2];
    }
  }

  /** A higher polarity never gets a lower score, whatever the limits. */
  lemma PolarityMonotone(p: real, q: real, lim1: real, lim2: real)
    requires p <= q
    ensures PolarityScore(p, lim1, lim2) <= PolarityScore(q, lim1, lim2)
  {
    if lim1 <= lim2 {
      PolarityBands(p, lim1, lim2);
      PolarityBands(q, lim1, lim2);
    } else {
      PolarityCrossedLimits(p, lim1, lim2);
      PolarityCrossedLimits(q, lim1, lim2);
    }
  }

  /** Subjective exactly when `s` reaches the limit; the limit itself is subjective. */
  lemma SubjectivityBands(s: real, limit: real)
    ensures SubjectivityClass(s, limit) == 1 <==> s >= limit
    ensures SubjectivityClass(s, limit) == 0 <==> s < limit
  {
    var c := SubjectivityConditions(s, limit);
    if s < limit {
      assert c[0];
    } else {
      assert !c[0] && c[1];
    }
  }

  /** A higher subjectivity never gets a lower class. */
  lemma SubjectivityMonotone(s: real, u: real, limit: real)
    requires s <= u
    ensures SubjectivityClass(s, limit) <= SubjectivityClass(u, limit)
  {
    SubjectivityBands(s, limit);
    SubjectivityBands(u, limit);
  }
}
