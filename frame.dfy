/**
 * The review table as the script keeps it: one frame whose rows are fixed
 * once loaded and to which the analysis adds columns in place, first the
 * four sentiment columns, then the review score, then the subjectivity
 * class.
 */
module Frame {
  import opened Records
  import opened Duplicates
  import opened Classify

  /** The rows without their leading index column. */
  function DropIndexColumn(csv: seq<CsvRow>): seq<Review>
  {
    seq(|csv|, i requires 0 <= i < |csv| => csv[i].review)
  }

  /**
   * The rows the analysis works on: index column dropped, exact duplicates
   * dropped keeping the first, renumbered from 0 (a sequence is numbered
   * from 0 already).
   */
  function Loaded(csv: seq<CsvRow>): seq<Review>
  {
    Dedup(DropIndexColumn(csv))
  }

  class ReviewFrame {
    var reviews: seq<Review>
    var titlePolarity: seq<real>
    var titleSubjectivity: seq<real>
    var reviewPolarity: seq<real>
    var reviewSubjectivity: seq<real>
    var reviewScore: seq<int>
    var subjectivity: seq<int>

    /** The four sentiment columns are present: one entry per row. */
    predicate HasSentiment()
      reads this
    {
      |titlePolarity| == |reviews| && |titleSubjectivity| == |reviews|
      && |reviewPolarity| == |reviews| && |reviewSubjectivity| == |reviews|
    }

    /** The sentiment columns hold the scorer's values for each row's title and text. */
    predicate ScoredBy(polarityOf: string -> real, subjectivityOf: string -> real)
      reads this
    {
      HasSentiment()
      && forall i :: 0 <= i < |reviews| ==>
           && titlePolarity[i] == polarityOf(reviews[i].title)
           && titleSubjectivity[i] == subjectivityOf(reviews[i].title)
           && reviewPolarity[i] == polarityOf(reviews[i].content)
           && reviewSubjectivity[i] == subjectivityOf(reviews[i].content)
    }

    /** Reads the rows, drops the index column and the duplicate rows; no column is added yet. */
    constructor Load(csv: seq<CsvRow>)
      ensures reviews == Loaded(csv)
      ensures titlePolarity == [] && titleSubjectivity == [] && reviewPolarity == [] && reviewSubjectivity == []
      ensures reviewScore == [] && subjectivity == []
    {
      reviews := Loaded(csv);
      titlePolarity, titleSubjectivity, reviewPolarity, reviewSubjectivity := [], [], [], [];
      reviewScore, subjectivity := [], [];
    }

    /**
     * Adds the polarity and subjectivity of every title and every review
     * text, as given by the sentiment scorer (a function of the text alone).
     */
    method AddSentiment(polarityOf: string -> real, subjectivityOf: string -> real)
      modifies this`titlePolarity, this`titleSubjectivity, this`reviewPolarity, this`reviewSubjectivity
      ensures ScoredBy(polarityOf, subjectivityOf)
    {
      var rows := reviews;
      titlePolarity := seq(|rows|, i requires 0 <= i < |rows| => polarityOf(rows[i].title));
      titleSubjectivity := seq(|rows|, i requires 0 <= i < |rows| => subjectivityOf(rows[i].title));
      reviewPolarity := seq(|rows|, i requires 0 <= i < |rows| => polarityOf(rows[i].content));
      reviewSubjectivity := seq(|rows|, i requires 0 <= i < |rows| => subjectivityOf(rows[i].content));
    }

    /**
     * Adds the review score column: each review polarity against the lower
     * and upper limits. The polarity column must be there already.
     */
    method AddReviewScore(lim1: real, lim2: real)
      requires |reviewPolarity| == |reviews|
      modifies this`reviewScore
      ensures |reviewScore| == |reviews|
      ensures forall i :: 0 <= i < |reviews| ==> reviewScore[i] == PolarityScore(reviewPolarity[i], lim1, lim2)
    {
      var polarity := reviewPolarity;
      reviewScore := seq(|polarity|, i requires 0 <= i < |polarity| => PolarityScore(polarity[i], lim1, lim2));
    }

    /** Adds the subjectivity class column: each review subjectivity against the limit. */
    method AddSubjectivity(limit: real)
      requires |reviewSubjectivity| == |reviews|
      modifies this`subjectivity
      ensures |subjectivity| == |reviews|
      ensures forall i :: 0 <= i < |reviews| ==> subjectivity[i] == SubjectivityClass(reviewSubjectivity[i], limit)
    {
      var subj := reviewSubjectivity;
      subjectivity := seq(|subj|, i requires 0 <= i < |subj| => SubjectivityClass(subj[i], limit));
    }

    /** The frame row by row, once every column is present. */
    function Table(): (t: seq<Scored>)
      reads this
      requires HasSentiment() && |reviewScore| == |reviews| && |subjectivity| == |reviews|
    {
      var rows, tp, ts, rp, rs, score, cls := reviews, titlePolarity, titleSubjectivity, reviewPolarity, reviewSubjectivity, reviewScore, subjectivity;
      seq(|rows|, i requires 0 <= i < |rows| => Scored(rows[i], tp[i], ts[i], rp[i], rs[i], score[i], cls[i]))
    }
  }
}
