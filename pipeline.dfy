/**
 * The whole analysis once the settings and the file have been read: load
 * and deduplicate, list the brands, score and classify every review, pick
 * the word-cloud panels and their axes, and count the reviews of every
 * brand by polarity class.
 */
module Pipeline {
  import opened Records
  import opened Duplicates
  import opened Classify
  import opened Frame
  import opened Analysis
  import opened Grid

  /** What a run produces besides its console output and drawings. */
  datatype Report = Report(
    brands: seq<string>,
    polarityPanels: seq<Subset>, polarityCells: seq<Cell>,
    subjectivityPanels: seq<Subset>,
    brandPanels: seq<Subset>, brandCells: seq<Cell>,
    tally: BrandTally)

  /** A scored row is the review with the scorer's values and the classes the settings give them. */
  predicate ScoredFrom(r: Scored, rv: Review, cfg: Config, polarityOf: string -> real, subjectivityOf: string -> real)
  {
    && r.review == rv
    && r.titlePolarity == polarityOf(rv.title) && r.titleSubjectivity == subjectivityOf(rv.title)
    && r.reviewPolarity == polarityOf(rv.content) && r.reviewSubjectivity == subjectivityOf(rv.content)
    && r.score == PolarityScore(polarityOf(rv.content), cfg.polarityLimitLower, cfg.polarityLimitUpper)
    && r.subjectivityClass == SubjectivityClass(subjectivityOf(rv.content), cfg.subjectivityLimit)
  }

  /** The brand column of a table is the brand column of the rows it was scored from. */
  lemma BrandColumnOfScored(t: seq<Scored>, rows: seq<Review>)
    requires |t| == |rows|
    requires forall i :: 0 <= i < |t| ==> t[i].review == rows[i]
    ensures BrandColumn(t) == seq(|rows|, i requires 0 <= i < |rows| => rows[i].brand)
  {
  }

  /**
   * The data half of a run: load the rows, list the brands, then add the
   * sentiment, review score and subjectivity columns, and hand back the
   * finished table.
   */
  method LoadAndClassify(csv: seq<CsvRow>, cfg: Config, polarityOf: string -> real, subjectivityOf: string -> real)
    returns (brands: seq<string>, t: seq<Scored>)
    ensures |t| == |Loaded(csv)|
    ensures forall i :: 0 <= i < |t| ==> ScoredFrom(t[i], Loaded(csv)[i], cfg, polarityOf, subjectivityOf)
    ensures brands == Brands(t)
  {
    var frame := new ReviewFrame.Load(csv);
    var rows := frame.reviews;
    brands := Dedup(seq(|rows|, i requires 0 <= i < |rows| => rows[i].brand));
    frame.AddSentiment(polarityOf, subjectivityOf);
    frame.AddReviewScore(cfg.polarityLimitLower, cfg.polarityLimitUpper);
    frame.AddSubjectivity(cfg.subjectivityLimit);
    t := frame.Table();
    BrandColumnOfScored(t, rows);
  }

  /**
   * A table scored from the loaded rows has every score in {-1, 0, 1} and
   * every class in {0, 1}.
   */
  lemma ScoredTable(csv: seq<CsvRow>, cfg: Config, polarityOf: string -> real, subjectivityOf: string -> real, t: seq<Scored>)
    requires |t| == |Loaded(csv)|
    requires forall i :: 0 <= i < |t| ==> ScoredFrom(t[i], Loaded(csv)[i], cfg, polarityOf, subjectivityOf)
    ensures WellClassified(t)
  {
    forall r | r in t
      ensures -1 <= r.score <= 1 && 0 <= r.subjectivityClass <= 1
    {
      var i :| 0 <= i < |t| && t[i] == r;
    }
  }

  /**
   * One run. It ends with an index error exactly when there are more than
   * four brands: the brand word clouds are drawn on a 2x2 grid before the
   * per-brand counts are taken. Otherwise no brand can make the ratio
   * divide by zero, and the positive, neutral and negative counts of all
   * brands add up to the number of rows.
   */
  method Run(csv: seq<CsvRow>, cfg: Config, polarityOf: string -> real, subjectivityOf: string -> real)
    returns (t: seq<Scored>, out: Result<Report>)
    ensures |t| == |Loaded(csv)|
    ensures forall i :: 0 <= i < |t| ==> ScoredFrom(t[i], Loaded(csv)[i], cfg, polarityOf, subjectivityOf)
    ensures WellClassified(t)
    ensures out.Ok? <==> |Brands(t)| <= 4
    ensures out.Err? ==> out.error == AxisOutOfRange(4)
    ensures out.Ok? ==> out.value.brands == Brands(t) && TallyOf(t, Brands(t), out.value.tally)
    ensures out.Ok? ==> out.value.polarityPanels == PolaritySubsets(t) && |out.value.polarityCells| == 4
    ensures out.Ok? ==> forall i :: 0 <= i < 4 ==> InGrid(out.value.polarityCells[i]) && Position(out.value.polarityCells[i]) == i
    ensures out.Ok? ==> out.value.subjectivityPanels == SubjectivitySubsets(t)
    ensures out.Ok? ==> |out.value.brandPanels| == |out.value.brandCells| == |Brands(t)|
    ensures out.Ok? ==> forall i :: 0 <= i < |Brands(t)| ==>
              out.value.brandPanels[i] == Subset(Brands(t)[i], Texts(BrandRows(t, Brands(t)[i])))
    ensures out.Ok? ==> forall i :: 0 <= i < |Brands(t)| ==> InGrid(out.value.brandCells[i]) && Position(out.value.brandCells[i]) == i
    ensures out.Ok? ==> forall i :: 0 <= i < |Brands(t)| ==> |out.value.brandPanels[i].texts| > 0
    ensures out.Ok? ==> Sum(out.value.tally.posits) + Sum(out.value.tally.neutrals) + Sum(out.value.tally.negats) == |t|
  {
    var brands;
    brands, t := LoadAndClassify(csv, cfg, polarityOf, subjectivityOf);
    ScoredTable(csv, cfg, polarityOf, subjectivityOf, t);

    // The panels depend on the score and class columns only, so taking
    // them from the finished table gives the panels the script draws.
    var polarityPanels := PolaritySubsets(t);
    var polarityCells := LayOut(polarityPanels);
    var subjectivityPanels := SubjectivitySubsets(t);
    var brandPanels := BrandSubsets(t, brands);
    var brandCells := LayOut(brandPanels);
    if brandCells.Err? {
      out := Err(brandCells.error);
      return;
    }

    BrandsListed(t);
    BrandSubsetsCover(t, brandPanels);
    var tally := TallyBrands(t, brands);
    TallyCoversRows(t, tally.value);
    out := match tally
      case Err(e) => Err(e)
      case Ok(counts) => Ok(Report(brands, polarityPanels, polarityCells.value, subjectivityPanels, brandPanels, brandCells.value, counts));
  }
}
