# Japanese whisky review analysis — decision and counting core

`whisky_nlp.py` reads a table of whisky reviews and deduplicates it. It scores
every review with a sentiment analyser and puts each review into a
polarity class and a subjectivity class. It then draws word clouds per class
and per brand, and reports the positive, neutral and negative reviews of each
brand. This project models the parts of that script that decide and count,
and proves what they guarantee:

- **Classification** (`classify.dfy`, module `Classify`). numpy's `select`
  takes the first condition that holds, or the default when none holds. On top
  of it sit the review score (-1, 0, 1 against a lower and an upper polarity
  limit) and the subjectivity class (0, 1 against one limit). Polarity and
  subjectivity are opaque `real`s, because the script only compares them.
- **Deduplication** (`duplicates.dfy`, module `Duplicates`). This is
  `drop_duplicates()` and `unique()` with their keep-first default, on any
  sequence of values.
- **The frame** (`frame.dfy`, module `Frame`). The class `ReviewFrame` holds
  the loaded rows. Its methods add the sentiment, review-score and
  subjectivity columns in place, as the script does to its data frame.
- **Selections and counts** (`analysis.dfy`, module `Analysis`). A boolean
  mask (`Mask`) and `Where` model `df[mask]`. On them sit the polarity and
  subjectivity subsets, the brand list, and the loop that pairs each brand
  with its texts. The per-brand tally loop collects the positive, neutral,
  negative and non-negative counts, plus the denominator of each brand's ratio.
- **Panel placement** (`grid.dfy`, module `Grid`). This is the choice of axis
  for each word-cloud panel on the 2×2 figures.
- **A run** (`pipeline.dfy`, module `Pipeline`). This is the script from
  loading to the tally, with the two exceptions the model keeps as `Result` errors.
  One is the `IndexError` from a fifth brand panel. The other is the
  `ZeroDivisionError` from a brand without rows. The model proves that the
  second cannot happen for tables without missing cells.

Three behaviours of the code that the model keeps as they are:
- The code never checks `polarity_limit_lower <= polarity_limit_upper`. The
  model takes any limits. It proves that with crossed limits `select`'s
  first-match rule leaves the neutral band empty (`PolarityCrossedLimits`).
- `drop_duplicates()` keeps the first occurrence of each row, in the original
  order. The model proves exactly that order (`DedupKeepsFirstOrder`).
- The non-negative ratio at line 114 divides by the brand's row count with no
  guard, so a brand without rows raises `ZeroDivisionError`. The model keeps
  that error path (`TallyBrands`). It proves the path unreachable when the
  brands come from a table without missing cells (`BrandsListed`, `Run`).

## Model

| member | source | states |
|---|---|---|
| `Classify.Select` | whisky_nlp.py:48 | numpy `select`: the result is the choice of the first condition that holds (all earlier ones false), and the default when no condition holds |
| `Classify.PolarityScore` | whisky_nlp.py:44-48 | the review score of any polarity, for any limits, is one of -1, 0, 1 |
| `Classify.PolarityBands` | whisky_nlp.py:44-48 | with lower <= upper: score -1 iff p < lower, 0 iff lower <= p <= upper (both limits neutral), 1 iff p > upper |
| `Classify.PolarityCrossedLimits` | whisky_nlp.py:44-48 | with lower > upper the first match still gives one score: -1 iff p < lower, never 0 (empty neutral band) |
| `Classify.PolarityDefaultUnused` | whisky_nlp.py:44-48 | for every polarity and every pair of limits one of the three conditions holds, so `select`'s default 0 never decides |
| `Classify.PolarityMonotone` | whisky_nlp.py:44-48 | a higher polarity never gets a lower score, for ordered and crossed limits alike |
| `Classify.SubjectivityClass` | whisky_nlp.py:70-73 | the subjectivity class is 0 or 1 |
| `Classify.SubjectivityBands` | whisky_nlp.py:70-73 | class 1 iff s >= limit (the limit itself is subjective), class 0 iff s < limit |
| `Classify.SubjectivityMonotone` | whisky_nlp.py:70-73 | a higher subjectivity never gets a lower class |
| `Duplicates.Dedup` | whisky_nlp.py:21 | after dropping duplicates no two rows are equal, every input row is still present, and no new row appears |
| `Duplicates.DedupKeepsFirstOrder` | whisky_nlp.py:21 | rows that come earlier in the result first occurred earlier in the input (keep-first order) |
| `Duplicates.DedupOfDistinct` | whisky_nlp.py:21 | a table with no duplicate rows is left unchanged |
| `Duplicates.DedupIdempotent` | whisky_nlp.py:21 | dropping duplicates twice is the same as once |
| `Frame.ReviewFrame.Load` | whisky_nlp.py:19-22 | the frame holds the rows with index column and duplicates dropped, and no added column yet |
| `Frame.ReviewFrame.AddSentiment` | whisky_nlp.py:33-38 | adds four columns: the scorer's polarity and subjectivity of every title and every review text, row by row |
| `Frame.ReviewFrame.AddReviewScore` | whisky_nlp.py:42-48 | adds the score column: entry i is the review score of row i's polarity against the limits; only that column changes |
| `Frame.ReviewFrame.AddSubjectivity` | whisky_nlp.py:70-73 | adds the class column: entry i is the subjectivity class of row i's subjectivity; only that column changes |
| `Analysis.WhereMultiplicity` | whisky_nlp.py:55 | a selection `df[mask]` keeps every copy of each row the mask holds for and no other row |
| `Analysis.ScoreSubsetsPartition` | whisky_nlp.py:55 | the negative, neutral and positive subsets are pairwise disjoint and together are exactly the table (as multisets) |
| `Analysis.ScoreSubsetSizes` | whisky_nlp.py:55 | the sizes of the three polarity subsets add up to the number of rows |
| `Analysis.PolarityPanelsSplitGeneral` | whisky_nlp.py:55 | the polarity figure has four panels, the first holding every review text; the positive, neutral and negative panels hold between them exactly the texts of the first (as multisets), and their sizes add up to the number of rows |
| `Analysis.ClassSubsetsPartition` | whisky_nlp.py:80 | the objective and subjective subsets are disjoint and together are exactly the table |
| `Analysis.ClassSubsetSizes` | whisky_nlp.py:80 | the sizes of the two subjectivity subsets add up to the number of rows |
| `Analysis.SubjectivityPanelsSplitAll` | whisky_nlp.py:80 | the subjectivity figure has two panels; the objective and subjective panels hold between them exactly the texts of all reviews (as multisets), and their sizes add up to the number of rows |
| `Analysis.BrandsListed` | whisky_nlp.py:25 | the brand list has no repeats, contains the brand of every row, lists brands in order of first appearance, and every listed brand has at least one row |
| `Analysis.BrandHasRows` | whisky_nlp.py:114 | a brand occurs in the brand column iff selecting it gives at least one row (a nonzero ratio denominator) |
| `Analysis.RowsSplitByBrand` | whisky_nlp.py:113-114 | the row counts of the listed brands add up to the number of rows |
| `Analysis.BrandSplit` | whisky_nlp.py:114-117 | per brand, positive + neutral + negative rows = the brand's rows, and non-negative rows = positive + neutral |
| `Analysis.TallyBrands` | whisky_nlp.py:111-117 | succeeds iff every listed brand has rows, and then holds each brand's positive, neutral, negative and non-negative counts and row total, in brand order; otherwise fails with a division by zero at the first brand without rows |
| `Analysis.TallyConsistent` | whisky_nlp.py:114-117 | in every tally, per brand, posits + neutrals + negats = total and non-negative = posits + neutrals <= total |
| `Analysis.TallyCoversRows` | whisky_nlp.py:111-117 | over the table's brand list, the totals add up to the number of rows, and so do all positive, neutral and negative counts together |
| `Analysis.BrandSubsets` | whisky_nlp.py:92-94 | one panel per listed brand, in order, named by the brand and holding the texts of exactly that brand's rows |
| `Analysis.BrandSubsetsCover` | whisky_nlp.py:92-94 | over the table's brand list no brand panel is empty, and every review text is in the panel of its brand |
| `Grid.CellForPlacement` | whisky_nlp.py:62-65 | the chosen axis read back in row-major order is the panel index; it is an axis of the 2x2 figure iff the index is below 4; from index 4 on the column is 2 or more |
| `Grid.CellForInjective` | whisky_nlp.py:62-65 | two different panels never get the same axis |
| `Grid.LayOut` | whisky_nlp.py:59-66 | the placement loop (also used at lines 98-105) succeeds iff there are at most four panels, giving each panel a distinct axis inside the grid; a fifth panel fails with an index error at index 4 |
| `Pipeline.LoadAndClassify` | whisky_nlp.py:19-73 | the table has one row per loaded row, carrying the scorer's values and the score and class the settings give them; the brand list, taken from the loaded rows before scoring, is the brand list of the finished table |
| `Pipeline.ScoredTable` | whisky_nlp.py:44-73 | a table scored this way has scores in {-1,0,1} and classes in {0,1} |
| `Pipeline.Run` | whisky_nlp.py:19-117 | a run fails exactly when there are more than four brands (index error 4); otherwise it never divides by zero, its tally matches the table's brands, the per-brand counts add up to the number of rows; the polarity and subjectivity panels are the table's subsets, the brand panels are the texts of each listed brand's rows and are non-empty, and every polarity and brand panel sits on its own axis of the grid in row-major order |

## Left out

- Reading `config.yml` (lines 12-14), the `float` conversion of the two polarity limits (lines 42-43), and the two stop-word lists. This is file I/O and configuration parsing. The model takes the three limits as a `Config` value of reals. The subjectivity limit is compared as loaded (lines 70-71), with no conversion, so a limit written as a quoted string in the file would make those comparisons raise a type error. The model does not capture that.
- Reading the CSV file (line 19). This is file I/O. The model takes the parsed rows, each with its index cell, as input.
- The TextBlob sentiment analyser (lines 33-38). It is a foreign NLP library. The model passes it in as two total functions from text to a real number.
- Word-cloud generation and all matplotlib calls: figures, `imshow`, titles, `axis('off')`, the stacked bar chart and `show` (lines 57-66, 82-87, 96-105, 122-125). These are rendering libraries. `LayOut` models only the choice of axis and the index error.
- The subjectivity figure's direct `axs[idx]` lookup on a 1×2 grid (line 87). It always has exactly two panels, so it cannot fail. The model builds the two panels but places nothing.
- The `locals()[name] = ...` bindings (lines 61, 86, 100). At module level they create globals named after the panels. The polarity and subjectivity panel names are never read again. A brand, though, could share its name with a global the script reads later, and the run would then fail where the model's does not:
  - `idx`: `TypeError` at line 101.
  - `axs`: `TypeError` at line 102 or 104.
  - `locals`: `TypeError` at line 105, in the same pass, even for the last brand.
  - `name`: `KeyError` at line 105.
  - `WordCloud`, `str` or `stop_words1`: `TypeError` at the next pass through line 100, so only when the brand is not the last one.
  - `print`: `TypeError` at line 112.
  - `brands`: `TypeError` at line 113.
  - `df`: `TypeError` at line 114.
  
  The model assumes no brand has one of these names. For such tables, `Run`'s "fails exactly when there are more than four brands" does not describe the script.
- `str(text)` on a pandas Series before it is fed to WordCloud (lines 61, 86, 100). Its output depends on pandas' printed format.
- Printed output (lines 18, 23-28, 32, 50, 75, 112, 114). This includes `head`, the column list, the brand and bottle frequency tables, and the `value_counts(normalize=True)` proportions. Floating-point division and `:.2f` formatting are left out too. The model keeps each brand's ratio as an exact pair (`nonNegative`, `totals`).
- NaN cells. A missing review text or brand, or a NaN polarity, is not modelled: the model's strings are always present and its `real`s have no NaN. With a NaN polarity, every comparison is false and `select` would return its default 0. With a missing brand, `unique()` (line 25) lists `nan`, but `df["Brand"] == nan` holds for no row. That brand then has zero rows, and line 114 raises `ZeroDivisionError` if there are at most four brands. The model's proof that the division is safe covers only tables without missing cells.
- The order of steps in `Pipeline.Run`. It builds the polarity panels after the subjectivity column is added, while the script builds them before. The panels read only the score column, so the result is the same.

