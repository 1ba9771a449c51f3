/** The values the review pipeline works on. */
module Records {

  /** One review row once the leading index column is gone: brand, bottle, title, text, and any further columns. */
  datatype Review = Review(brand: string, bottleName: string, title: string, content: string, others: seq<string>)

  /** One row as read from the file: the unnamed index column, then the review. */
  datatype CsvRow = CsvRow(index: string, review: Review)

  /**
   * A review with the columns the analysis adds: the sentiment of its title
   * and of its text, its review score (-1 negative, 0 neutral, 1 positive)
   * and its subjectivity class (0 objective, 1 subjective).
   */
  datatype Scored = Scored(
    review: Review,
    titlePolarity: real, titleSubjectivity: real,
    reviewPolarity: real, reviewSubjectivity: real,
    score: int, subjectivityClass: int)

  /** The three numeric settings the classification reads; the rest of the settings file is not modelled. */
  datatype Config = Config(polarityLimitLower: real, polarityLimitUpper: real, subjectivityLimit: real)

  /** The exceptions that can end a run once the data is loaded. */
  datatype ScriptError =
    | ZeroDivision(brand: string)     // a brand with no rows in the ratio of non-negative reviews
    | AxisOutOfRange(index: nat)      // a word-cloud panel past the 2x2 grid of axes

  datatype Result<T> = Ok(value: T) | Err(error: ScriptError)

  /** A named group of review texts, one word-cloud panel. */
  datatype Subset = Subset(name: string, texts: seq<string>)
}
