/**
 * Selections and counts over the scored review table: the polarity and
 * subjectivity subsets behind the word clouds, the list of brands, the
 * per-brand subsets and the per-brand tally of positive, neutral and
 * negative reviews. Every selection `df[cond]` is `Where` with the
 * condition as a predicate on a row, and `df[cond].shape[0]` is its length.
 */
module Analysis {
  import opened Records
  import opened Duplicates

  /** A boolean mask over the table, as built from column comparisons and `&`. */
  datatype Mask =
    | ScoreIs(k: int)                // df["Review_score"] == k
    | ScoreAtLeast(k: int)           // df["Review_score"] >= k
    | ClassIs(c: int)                // df["Subjectivity"] == c
    | BrandIs(b: string)             // df["Brand"] == b
    | And(left: Mask, right: Mask)   // left & right

  predicate Holds(m: Mask, r: Scored)
  {
    match m
    case ScoreIs(k) => r.score == k
    case ScoreAtLeast(k) => r.score >= k
    case ClassIs(c) => r.subjectivityClass == c
    case BrandIs(b) => r.review.brand == b
    case And(left, right) => Holds(left, r) && Holds(right, r)
  }

  /** `df[m]`: the rows of `t` where the mask holds, in their order; built from the back. */
  function Where(t: seq<Scored>, m: Mask): (sub: seq<Scored>)
    ensures |sub| <= |t|
  {
    if t == [] then [] else Where(t[..|t| - 1], m) + (if Holds(m, t[|t| - 1]) then [t[|t| - 1]] else [])
  }

  /** A selection keeps every copy of a row the mask holds for, and no other row. */
  lemma {:induction false} WhereMultiplicity(t: seq<Scored>, m: Mask, r: Scored)
    ensures multiset(Where(t, m))[r] == if Holds(m, r) then multiset(t)[r] else 0
  {
    if t != [] {
      var init, last := t[..|t| - 1], t[|t| - 1];
      assert t == init + [last];
      WhereMultiplicity(init, m, r);
    }
  }

  /** The review texts of some rows, the `["Review_Content"]` column of a selection. */
  function Texts(rows: seq<Scored>): seq<string>
  {
    seq(|rows|, i requires 0 <= i < |rows| => rows[i].review.content)
  }

  /** What the classification columns guarantee of every row. */
  predicate WellClassified(t: seq<Scored>)
  {
    forall r :: r in t ==> -1 <= r.score <= 1 && 0 <= r.subjectivityClass <= 1
  }

  function ScoreSubset(t: seq<Scored>, k: int): seq<Scored>
  {
    Where(t, ScoreIs(k))
  }

  function ClassSubset(t: seq<Scored>, c: int): seq<Scored>
  {
    Where(t, ClassIs(c))
  }

  function BrandRows(t: seq<Scored>, b: string): seq<Scored>
  {
    Where(t, BrandIs(b))
  }

  function BrandScoreRows(t: seq<Scored>, b: string, k: int): seq<Scored>
  {
    Where(t, And(ScoreIs(k), BrandIs(b)))
  }

  function BrandNonNegativeRows(t: seq<Scored>, b: string): seq<Scored>
  {
    Where(t, And(ScoreAtLeast(0), BrandIs(b)))
  }

  /** The four panels of the polarity figure: all reviews, then positive, neutral and negative ones. */
  function PolaritySubsets(t: seq<Scored>): seq<Subset>
  {
    [Subset("general", Texts(t)),
     Subset("positive", Texts(ScoreSubset(t, 1))),
     Subset("neutral", Texts(ScoreSubset(t, 0))),
     Subset("negative", Texts(ScoreSubset(t, -1)))]
  }

  /** The two panels of the subjectivity figure. */
  function SubjectivitySubsets(t: seq<Scored>): seq<Subset>
  {
    [Subset("objective", Texts(ClassSubset(t, 0))),
     Subset("subjective", Texts(ClassSubset(t, 1)))]
  }

  /**
   * The negative, neutral and positive subsets split the table: every row
   * lies in exactly one of them, so their sizes add up to the row count.
   */
  lemma ScoreSubsetsPartition(t: seq<Scored>)
    requires WellClassified(t)
    ensures multiset(ScoreSubset(t, -1)) + multiset(ScoreSubset(t, 0)) + multiset(ScoreSubset(t, 1)) == multiset(t)
    ensures multiset(ScoreSubset(t, -1)) !! multiset(ScoreSubset(t, 0))
    ensures multiset(ScoreSubset(t, -1)) !! multiset(ScoreSubset(t, 1))
    ensures multiset(ScoreSubset(t, 0)) !! multiset(ScoreSubset(t, 1))
  {
    var neg, neu, pos := multiset(ScoreSubset(t, -1)), multiset(ScoreSubset(t, 0)), multiset(ScoreSubset(t, 1));
    forall r
      ensures (neg + neu + pos)[r] == multiset(t)[r]
      ensures neg[r] == 0 || neu[r] == 0
      ensures neg[r] == 0 || pos[r] == 0
      ensures neu[r] == 0 || pos[r] == 0
    {
      WhereMultiplicity(t, ScoreIs(-1), r);
      WhereMultiplicity(t, ScoreIs(0), r);
      WhereMultiplicity(t, ScoreIs(1), r);
      if r in t {
        assert -1 <= r.score <= 1;
      }
    }
  }

  /** Hence the sizes of the three polarity subsets add up to the number of rows. */
  lemma {:induction false} ScoreSubsetSizes(t: seq<Scored>)
    requires WellClassified(t)
    ensures |ScoreSubset(t, -1)| + |ScoreSubset(t, 0)| + |ScoreSubset(t, 1)| == |t|
  {
    if t != [] {
      var init, last := t[..|t| - 1], t[|t| - 1];
      assert t == init + [last];
      assert WellClassified(init);
      ScoreSubsetSizes(init);
      assert -1 <= last.score <= 1;
    }
  }

  /** The objective and subjective subsets split the table in the same way. */
  lemma ClassSubsetsPartition(t: seq<Scored>)
    requires WellClassified(t)
    ensures multiset(ClassSubset(t, 0)) + multiset(ClassSubset(t, 1)) == multiset(t)
    ensures multiset(ClassSubset(t, 0)) !! multiset(ClassSubset(t, 1))
  {
    var obj, subj := multiset(ClassSubset(t, 0)), multiset(ClassSubset(t, 1));
    forall r
      ensures (obj + subj)[r] == multiset(t)[r]
      ensures obj[r] == 0 || subj[r] == 0
    {
      WhereMultiplicity(t, ClassIs(0), r);
      WhereMultiplicity(t, ClassIs(1), r);
      if r in t {
        assert 0 <= r.subjectivityClass <= 1;
      }
    }
  }

  lemma {:induction false} ClassSubsetSizes(t: seq<Scored>)
    requires WellClassified(t)
    ensures |ClassSubset(t, 0)| + |ClassSubset(t, 1)| == |t|
  {
    if t != [] {
      var init, last := t[..|t| - 1], t[|t| - 1];
      assert t == init + [last];
      assert WellClassified(init);
      ClassSubsetSizes(init);
      assert 0 <= last.subjectivityClass <= 1;
    }
  }

  /** Selecting from a table with one more row adds that row's text when the mask holds for it. */
  lemma WhereTextsSnoc(init: seq<Scored>, last: Scored, m: Mask)
    ensures Texts(Where(init + [last], m)) == Texts(Where(init, m)) + (if Holds(m, last) then [last.review.content] else [])
  {
    assert (init + [last])[..|init|] == init;
  }

  /**
   * The positive, neutral and negative panels of the polarity figure hold,
   * between them, exactly the texts of the "general" panel: each review
   * text goes to one of the three, as often as it occurs in the table.
   */
  lemma {:induction false} PolarityPanelsSplitGeneral(t: seq<Scored>)
    requires WellClassified(t)
    ensures |PolaritySubsets(t)| == 4 && PolaritySubsets(t)[0].texts == Texts(t)
    ensures multiset(PolaritySubsets(t)[1].texts) + multiset(PolaritySubsets(t)[2].texts)
              + multiset(PolaritySubsets(t)[3].texts) == multiset(PolaritySubsets(t)[0].texts)
    ensures |PolaritySubsets(t)[1].texts| + |PolaritySubsets(t)[2].texts| + |PolaritySubsets(t)[3].texts| == |t|
  {
    if t != [] {
      var init, last := t[..|t| - 1], t[|t| - 1];
      assert t == init + [last];
      assert WellClassified(init);
      PolarityPanelsSplitGeneral(init);
      assert Texts(t) == Texts(init) + [last.review.content];
      WhereTextsSnoc(init, last, ScoreIs(1));
      WhereTextsSnoc(init, last, ScoreIs(0));
      WhereTextsSnoc(init, last, ScoreIs(-1));
      assert -1 <= last.score <= 1;
    }
  }

  /**
   * Likewise the objective and subjective panels hold, between them,
   * exactly the texts of all reviews.
   */
  lemma {:induction false} SubjectivityPanelsSplitAll(t: seq<Scored>)
    requires WellClassified(t)
    ensures |SubjectivitySubsets(t)| == 2
    ensures multiset(SubjectivitySubsets(t)[0].texts) + multiset(SubjectivitySubsets(t)[1].texts) == multiset(Texts(t))
    ensures |SubjectivitySubsets(t)[0].texts| + |SubjectivitySubsets(t)[1].texts| == |t|
  {
    if t != [] {
      var init, last := t[..|t| - 1], t[|t| - 1];
      assert t == init + [last];
      assert WellClassified(init);
      SubjectivityPanelsSplitAll(init);
      assert Texts(t) == Texts(init) + [last.review.content];
      WhereTextsSnoc(init, last, ClassIs(0));
      WhereTextsSnoc(init, last, ClassIs(1));
      assert 0 <= last.subjectivityClass <= 1;
    }
  }

  /** The `Brand` column. */
  function BrandColumn(t: seq<Scored>): (c: seq<string>)
    ensures |c| == |t| && forall i :: 0 <= i < |t| ==> c[i] == t[i].review.brand
  {
    if t == [] then [] else BrandColumn(t[..|t| - 1]) + [t[|t| - 1].review.brand]
  }

  /** `df["Brand"].unique()`: the brands in order of first appearance. */
  function Brands(t: seq<Scored>): seq<string>
  {
    Dedup(BrandColumn(t))
  }

  /** A brand occurs in the column exactly when selecting it gives at least one row. */
  lemma BrandHasRows(t: seq<Scored>, b: string)
    ensures b in BrandColumn(t) <==> |BrandRows(t, b)| > 0
  {
    var rows := BrandRows(t, b);
    if b in BrandColumn(t) {
      var i :| 0 <= i < |t| && BrandColumn(t)[i] == b;
      WhereMultiplicity(t, BrandIs(b), t[i]);
      assert multiset(rows)[t[i]] > 0;
    }
    if |rows| > 0 {
      WhereMultiplicity(t, BrandIs(b), rows[0]);
      assert multiset(rows)[rows[0]] > 0;
      assert rows[0] in t;
      var i :| 0 <= i < |t| && t[i] == rows[0];
      assert BrandColumn(t)[i] == b;
    }
  }

  /**
   * The brand list holds every brand of the table once, in order of first
   * appearance, and only brands that have rows: the denominator of every
   * per-brand ratio is nonzero.
   */
  lemma BrandsListed(t: seq<Scored>)
    ensures Distinct(Brands(t))
    ensures forall i :: 0 <= i < |t| ==> t[i].review.brand in Brands(t)
    ensures forall i :: 0 <= i < |Brands(t)| ==> |BrandRows(t, Brands(t)[i])| > 0
    ensures forall i, j :: 0 <= i < j < |Brands(t)| ==>
              FirstIndex(BrandColumn(t), Brands(t)[i]) < FirstIndex(BrandColumn(t), Brands(t)[j])
  {
    var c, bs := BrandColumn(t), Brands(t);
    forall i | 0 <= i < |t|
      ensures t[i].review.brand in bs
    {
      assert c[i] == t[i].review.brand;
    }
    forall i | 0 <= i < |bs|
      ensures |BrandRows(t, bs[i])| > 0
    {
      BrandHasRows(t, bs[i]);
    }
    DedupKeepsFirstOrder(c);
  }

  /** Sum of a sequence of counts. */
  function Sum(xs: seq<nat>): nat
  {
    if xs == [] then 0 else Sum(xs[..|xs| - 1]) + xs[|xs| - 1]
  }

  /** The number of rows of each listed brand, added up. */
  function SumOfBrandRows(t: seq<Scored>, bs: seq<string>): nat
  {
    if bs == [] then 0 else SumOfBrandRows(t, bs[..|bs| - 1]) + |BrandRows(t, bs[|bs| - 1])|
  }

  /** One more row adds one to the count of its own brand and to no other. */
  lemma BrandRowsAppend(t: seq<Scored>, x: Scored, b: string)
    ensures |BrandRows(t + [x], b)| == |BrandRows(t, b)| + if x.review.brand == b then 1 else 0
  {
    assert (t + [x])[..|t|] == t;
  }

  lemma {:induction false} SumOfBrandRowsAppend(t: seq<Scored>, x: Scored, bs: seq<string>)
    ensures SumOfBrandRows(t + [x], bs) == SumOfBrandRows(t, bs) + multiset(bs)[x.review.brand]
  {
    if bs != [] {
      var init, last := bs[..|bs| - 1], bs[|bs| - 1];
      assert bs == init + [last];
      SumOfBrandRowsAppend(t, x, init);
      BrandRowsAppend(t, x, last);
    }
  }

  lemma {:induction false} DistinctCount(bs: seq<string>, b: string)
    requires Distinct(bs)
    ensures multiset(bs)[b] == if b in bs then 1 else 0
  {
    if bs != [] {
      var init, last := bs[..|bs| - 1], bs[|bs| - 1];
      assert bs == init + [last];
      assert Distinct(init);
      DistinctCount(init, b);
    }
  }

  /** Counting the rows brand by brand over the brand list counts every row once. */
  lemma {:induction false} RowsSplitByBrand(t: seq<Scored>)
    ensures SumOfBrandRows(t, Brands(t)) == |t|
  {
    if t != [] {
      var init, last := t[..|t| - 1], t[|t| - 1];
      assert t == init + [last];
      var b := last.review.brand;
      var bs := Brands(init);
      RowsSplitByBrand(init);
      assert BrandColumn(t) == BrandColumn(init) + [b];
      SumOfBrandRowsAppend(init, last, bs);
      DistinctCount(bs, b);
      if b !in bs {
        assert Brands(t) == bs + [b];
        assert (bs + [b])[..|bs|] == bs;
        BrandHasRows(init, b);
        BrandRowsAppend(init, last, b);
      }
    }
  }

  /**
   * For every brand the positive, neutral and negative rows add up to the
   * brand's rows, and the non-negative rows are the positive and neutral
   * ones.
   */
  lemma {:induction false} BrandSplit(t: seq<Scored>, b: string)
    requires WellClassified(t)
    ensures |BrandScoreRows(t, b, 1)| + |BrandScoreRows(t, b, 0)| + |BrandScoreRows(t, b, -1)| == |BrandRows(t, b)|
    ensures |BrandNonNegativeRows(t, b)| == |BrandScoreRows(t, b, 1)| + |BrandScoreRows(t, b, 0)|
  {
    if t != [] {
      var init, last := t[..|t| - 1], t[|t| - 1];
      assert t == init + [last];
      assert WellClassified(init);
      BrandSplit(init, b);
      assert -1 <= last.score <= 1;
      assert Holds(And(ScoreIs(1), BrandIs(b)), last) == (last.score == 1 && last.review.brand == b);
      assert Holds(And(ScoreIs(0), BrandIs(b)), last) == (last.score == 0 && last.review.brand == b);
      assert Holds(And(ScoreIs(-1), BrandIs(b)), last) == (last.score == -1 && last.review.brand == b);
      assert Holds(And(ScoreAtLeast(0), BrandIs(b)), last) == (last.score >= 0 && last.review.brand == b);
    }
  }

  /**
   * The per-brand figures of the ratio report and the stacked bar chart:
   * positive, neutral and negative counts, and the numerator and
   * denominator of each brand's share of non-negative reviews.
   */
  datatype BrandTally = BrandTally(posits: seq<nat>, neutrals: seq<nat>, negats: seq<nat>, nonNegative: seq<nat>, totals: seq<nat>)

  /** `tally` holds, position by position, the counts of the brands in `brands`. */
  predicate TallyOf(t: seq<Scored>, brands: seq<string>, tally: BrandTally)
  {
    && |tally.posits| == |brands| && |tally.neutrals| == |brands| && |tally.negats| == |brands|
    && |tally.nonNegative| == |brands| && |tally.totals| == |brands|
    && forall i :: 0 <= i < |brands| ==>
         && tally.posits[i] == |BrandScoreRows(t, brands[i], 1)|
         && tally.neutrals[i] == |BrandScoreRows(t, brands[i], 0)|
         && tally.negats[i] == |BrandScoreRows(t, brands[i], -1)|
         && tally.nonNegative[i] == |BrandNonNegativeRows(t, brands[i])|
         && tally.totals[i] == |BrandRows(t, brands[i])|
  }

  /**
   * The loop over brands that reports each brand's share of non-negative
   * reviews and collects the positive, neutral and negative counts. The
   * share divides by the brand's row count, so a brand without rows stops
   * the loop with a division by zero.
   */
  method TallyBrands(t: seq<Scored>, brands: seq<string>) returns (res: Result<BrandTally>)
    ensures res.Ok? <==> forall i :: 0 <= i < |brands| ==> |BrandRows(t, brands[i])| > 0
    ensures res.Ok? ==> TallyOf(t, brands, res.value)
    ensures res.Err? ==> exists i :: 0 <= i < |brands| && res.error == ZeroDivision(brands[i])
                                     && |BrandRows(t, brands[i])| == 0
                                     && forall j :: 0 <= j < i ==> |BrandRows(t, brands[j])| > 0
  {
    var posits: seq<nat>, neutrals: seq<nat>, negats: seq<nat>, nonNegative: seq<nat>, totals: seq<nat> := [], [], [], [], [];
    var i := 0;
    while i < |brands|
      invariant 0 <= i <= |brands|
      invariant forall j :: 0 <= j < i ==> |BrandRows(t, brands[j])| > 0
      invariant |posits| == i && |neutrals| == i && |negats| == i && |nonNegative| == i && |totals| == i
      invariant forall j :: 0 <= j < i ==>
                  && posits[j] == |BrandScoreRows(t, brands[j], 1)|
                  && neutrals[j] == |BrandScoreRows(t, brands[j], 0)|
                  && negats[j] == |BrandScoreRows(t, brands[j], -1)|
                  && nonNegative[j] == |BrandNonNegativeRows(t, brands[j])|
                  && totals[j] == |BrandRows(t, brands[j])|
    {
      var b := brands[i];
      var total := |BrandRows(t, b)|;
      if total == 0 {
        return Err(ZeroDivision(b));
      }
      nonNegative := nonNegative + [|BrandNonNegativeRows(t, b)|];
      totals := totals + [total];
      posits := posits + [|BrandScoreRows(t, b, 1)|];
      neutrals := neutrals + [|BrandScoreRows(t, b, 0)|];
      negats := negats + [|BrandScoreRows(t, b, -1)|];
      i := i + 1;
    }
    res := Ok(BrandTally(posits, neutrals, negats, nonNegative, totals));
  }

  /**
   * Each brand's counts are consistent: positive, neutral and negative add
   * up to the brand's rows, and the non-negative count is positive plus
   * neutral, never more than the brand's rows.
   */
  lemma TallyConsistent(t: seq<Scored>, brands: seq<string>, tally: BrandTally)
    requires WellClassified(t) && TallyOf(t, brands, tally)
    ensures forall i :: 0 <= i < |brands| ==>
              && tally.posits[i] + tally.neutrals[i] + tally.negats[i] == tally.totals[i]
              && tally.nonNegative[i] == tally.posits[i] + tally.neutrals[i]
              && tally.nonNegative[i] <= tally.totals[i]
  {
    forall i | 0 <= i < |brands|
      ensures tally.posits[i] + tally.neutrals[i] + tally.negats[i] == tally.totals[i]
      ensures tally.nonNegative[i] == tally.posits[i] + tally.neutrals[i]
    {
      BrandSplit(t, brands[i]);
    }
  }

  lemma {:induction false} SumOfTotals(t: seq<Scored>, brands: seq<string>, totals: seq<nat>)
    requires |totals| == |brands| && forall i :: 0 <= i < |brands| ==> totals[i] == |BrandRows(t, brands[i])|
    ensures Sum(totals) == SumOfBrandRows(t, brands)
  {
    if brands != [] {
      SumOfTotals(t, brands[..|brands| - 1], totals[..|totals| - 1]);
    }
  }

  lemma {:induction false} SumOfParts(xs: seq<nat>, ys: seq<nat>, zs: seq<nat>, ws: seq<nat>)
    requires |xs| == |ws| && |ys| == |ws| && |zs| == |ws|
    requires forall i :: 0 <= i < |ws| ==> xs[i] + ys[i] + zs[i] == ws[i]
    ensures Sum(xs) + Sum(ys) + Sum(zs) == Sum(ws)
  {
    if ws != [] {
      var n := |ws| - 1;
      SumOfParts(xs[..n], ys[..n], zs[..n], ws[..n]);
    }
  }

  /**
   * Over the brand list of the table, the per-brand counts cover the whole
   * table: the row counts, and the positive, neutral and negative counts
   * together, both add up to the number of rows.
   */
  lemma TallyCoversRows(t: seq<Scored>, tally: BrandTally)
    requires WellClassified(t) && TallyOf(t, Brands(t), tally)
    ensures Sum(tally.totals) == |t|
    ensures Sum(tally.posits) + Sum(tally.neutrals) + Sum(tally.negats) == |t|
  {
    SumOfTotals(t, Brands(t), tally.totals);
    RowsSplitByBrand(t);
    TallyConsistent(t, Brands(t), tally);
    SumOfParts(tally.posits, tally.neutrals, tally.negats, tally.totals);
  }

  /** The loop that pairs each brand with the texts of its reviews, one word-cloud panel per brand. */
  method BrandSubsets(t: seq<Scored>, brands: seq<string>) returns (sets: seq<Subset>)
    ensures |sets| == |brands|
    ensures forall i :: 0 <= i < |brands| ==> sets[i] == Subset(brands[i], Texts(BrandRows(t, brands[i])))
  {
    sets := [];
    var i := 0;
    while i < |brands|
      invariant 0 <= i <= |brands|
      invariant |sets| == i
      invariant forall j :: 0 <= j < i ==> sets[j] == Subset(brands[j], Texts(BrandRows(t, brands[j])))
    {
      sets := sets + [Subset(brands[i], Texts(BrandRows(t, brands[i])))];
      i := i + 1;
    }
  }

  /** A review's text is among the texts of its brand's rows. */
  lemma TextInBrandRows(t: seq<Scored>, k: nat)
    requires k < |t|
    ensures t[k].review.content in Texts(BrandRows(t, t[k].review.brand))
  {
    var rows := BrandRows(t, t[k].review.brand);
    WhereMultiplicity(t, BrandIs(t[k].review.brand), t[k]);
    assert t[k] in rows;
    var m :| 0 <= m < |rows| && rows[m] == t[k];
    assert Texts(rows)[m] == t[k].review.content;
  }

  /**
   * Over the brand list of the table no brand panel is empty, and every
   * review text shows up in the panel of its brand.
   */
  lemma BrandSubsetsCover(t: seq<Scored>, sets: seq<Subset>)
    requires |sets| == |Brands(t)|
    requires forall i :: 0 <= i < |sets| ==> sets[i] == Subset(Brands(t)[i], Texts(BrandRows(t, Brands(t)[i])))
    ensures forall i :: 0 <= i < |sets| ==> |sets[i].texts| > 0
    ensures forall k :: 0 <= k < |t| ==>
              exists i :: 0 <= i < |sets| && sets[i].name == t[k].review.brand && t[k].review.content in sets[i].texts
  {
    var bs := Brands(t);
    BrandsListed(t);
    forall k | 0 <= k < |t|
      ensures exists i :: 0 <= i < |sets| && sets[i].name == t[k].review.brand && t[k].review.content in sets[i].texts
    {
      var i :| 0 <= i < |bs| && bs[i] == t[k].review.brand;
      TextInBrandRows(t, k);
      assert sets[i].name == t[k].review.brand && t[k].review.content in sets[i].texts;
    }
  }
}
