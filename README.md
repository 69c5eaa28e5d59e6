# Student orientation and department estimates, verified model

This project models the computation at the heart of a small student-analysis
dashboard. The dashboard builds a roster of students, each with six subject
marks out of 20: mathematics, physics, english, arabic, computer science and
algebra. It gives every student an orientation: mathematics, computer
science, languages or physics. It counts how many students have each
orientation, turns the counts into shares of the roster, and estimates how
many of a given total of departments each orientation needs.

The model is written in Dafny and split into modules that follow the steps
of the computation:

- `Rounding` (rounding.dfy): rounding a fraction num/den to the nearest
  integer, with halves going to the even neighbour. numpy uses this rule when
  it rounds the marks to two decimals and when it rounds the department
  estimates.
- `Marks` (marks.dfy): a row of six marks. Each mark is kept as an integer
  number of hundredths, from 0 to 2000. This module clips a raw mark into
  [0, 20] and rounds it to hundredths. A raw mark is given as an exact
  fraction num/den.
- `Orientation` (orientation.dfy): the orientation classifier. It is a
  cascade of three rules with physics as the default. Each rule is also
  stated on its own, subject by subject, and the classifier is proved to
  pick exactly the first rule that holds. The mean comparison is stated over
  reals and proved equal to the integer test `2*(arabic+english) >
  physics+mathematics+computer science+algebra` that the classifier makes.
- `Roster` (roster.dfy): filling the orientation column row by row
  (`LabelRows`, a loop over an array) and counting it (`CountOrientations`,
  a loop that builds a map from each orientation to its count).
- `Departments` (departments.dfy): shares kept as exact fractions
  count/students, and the department estimates. Each estimate is
  round-half-to-even of count·total/students.
- `Analysis` (analysis.dfy): the whole run, from the raw score matrix to the
  estimates, as methods that chain the steps above.

Raw marks are given as inputs. The random draws never appear in the model.

Three facts about the code shape the model:

- The code has no error path. Nothing rejects a total of departments below
  1 or an empty roster. Only the widgets' minimum values (app.py:40 and
  app.py:68) keep both inputs at 1 or more. So the model has no error path
  either, and each bound lemma states the assumptions it needs. The bounds
  on the estimates hold for any total of at least 0.
- The mathematics rule and the computer science rule can never both hold
  (`LeadsExclusive`). The order of the cascade still matters, because the
  mathematics rule and the languages rule can both hold. `CascadeOrder`
  gives such a row, and `CascadePriority` proves that every such row is
  labelled mathematics.
- With shares between 0 and 1, every estimate lies in 0..total
  (`EstimateBounds`).

## Model

| member | source | states |
|---|---|---|
| `Rounding.RoundHalfEven` | app.py:11 | the result is within half a unit of num/den, and it is even when num/den lies exactly halfway between two integers |
| `Rounding.RoundingUnique` | app.py:34 | only one integer meets the round-half-to-even contract, so the rounding is fully determined |
| `Rounding.IsRoundingIff` | app.py:34 | an integer is a correct rounding of num/den if and only if it is the value RoundHalfEven returns |
| `Rounding.RoundExact` | app.py:34 | rounding an exact multiple k·den of den gives k |
| `Rounding.RoundWithin` | app.py:34 | if num/den lies in an integer interval [lo, hi], its rounding does too |
| `Marks.Clip` | app.py:10 | the clipped value lies in [lo, hi] and is the point of that interval closest to the input |
| `Marks.Mark` | app.py:10-11 | a raw mark clipped into [0, 20] and rounded to hundredths lies in 0..2000; it is the half-to-even rounding of the clipped value, and of the raw value itself when that is already in range |
| `Marks.MarkKeepsExactMarks` | app.py:10-11 | a mark already in [0, 20] with two decimals, h/100, comes out as h over any denominator: num/den == h/100 gives h |
| `Marks.RoundRow` | app.py:10-11 | every mark of a clipped and rounded row lies in [0, 20] |
| `Marks.RoundRowIdempotent` | app.py:10-11 | clipping and rounding a row twice gives the same row as doing it once |
| `Marks.ScoreMatrix` | app.py:9-11 | the score matrix has one row per raw row, in order, each row clipped and rounded and in range |
| `Orientation.Max4` | app.py:17 | the result is one of the four marks and is at least each of them |
| `Orientation.Determine` | app.py:16-24 | mathematics if and only if mathematics and algebra both beat physics, english, arabic and computer science; computer science if and only if the mathematics rule fails and computer science and algebra both beat physics, english, arabic and mathematics; languages if and only if both rules fail and the mean of arabic and english is above the mean of the other four; physics if and only if all three rules fail |
| `Orientation.LanguagesLeadIff` | app.py:21 | the comparison of the two means holds if and only if 2·(arabic + english) > physics + mathematics + computer science + algebra |
| `Orientation.LeadsExclusive` | app.py:17-20 | the mathematics rule and the computer science rule never both hold |
| `Orientation.CascadeOrder` | app.py:17-22 | the two rules overlap: the row (10.01, 0, 10, 10, 0, 10.01) meets both the mathematics rule and the languages rule, and it is labelled mathematics |
| `Orientation.CascadePriority` | app.py:17-22 | every row that meets both the mathematics rule and the languages rule is labelled mathematics, because the first rule that holds decides |
| `Orientation.NamesDistinct` | app.py:16-24 | the four labels are different strings |
| `Roster.Labels` | app.py:25 | the orientation column has one label per row, and label i is the orientation of row i |
| `Roster.LabelsAppend` | app.py:25 | labelling two parts of a roster one after the other gives the labels of the whole roster, in order |
| `Roster.LabelRows` | app.py:25 | the newly allocated array the loop fills has one entry per row, and its contents equal the orientation column of the score matrix |
| `Roster.OccurrencesMultiset` | app.py:49 | the count of an orientation equals its multiplicity in the multiset of the column |
| `Roster.OccurrencesPositive` | app.py:49 | an orientation has a positive count exactly when it occurs in the column |
| `Roster.OccurrencesSum` | app.py:49-50 | the counts of the four orientations add up to the number of rows |
| `Roster.ValueCountsUnique` | app.py:49 | the value counts of a column are fully determined by the column |
| `Roster.ValueCountsTotal` | app.py:49-50 | the value counts add up to the number of rows, and each one lies in 1..rows |
| `Roster.CountOrientations` | app.py:49 | the loop's map has an entry exactly for each orientation in the column, holding the number of times it occurs there (its multiplicity) |
| `Departments.Proportions` | app.py:51 | each counted orientation gets the share count/students, and no other orientation gets a share |
| `Departments.ProportionsSumToOne` | app.py:49-51 | for the value counts of a roster, every share lies in (0, 1] over the roster size and the numerators add up to the roster size, so for a non-empty roster the shares add up to exactly one |
| `Departments.EstimateDepartments` | app.py:33-34 | there is one estimate per orientation with a share, and each is the half-to-even rounding of share × total |
| `Departments.EstimateBounds` | app.py:34 | with shares between 0 and 1 and a total of at least 0, every estimate lies in 0..total |
| `Departments.EstimatesNearTotal` | app.py:34 | the estimates for a non-empty roster add up to within 2 of the total; they need not equal it |
| `Departments.EvenSplitExample` | app.py:34 | four equal quarters of 10 departments each round from 2.5 down to 2, so the estimates add up to 8 |
| `Analysis.BuildScoreMatrix` | app.py:9-11 | a newly allocated marks array holds the clipped and rounded raw matrix |
| `Analysis.GenerateRoster` | app.py:9-25 | gives, in newly allocated arrays, the score matrix of the raw marks and the orientation column of that matrix |
| `Analysis.EstimateFromColumn` | app.py:49-51 | gives the value counts of the column and one estimate per counted orientation; each estimate is the rounding of count × total / rows and lies in 0..total when total ≥ 0; for a non-empty roster the estimates add up to within 2 of total |
| `Analysis.AnalyseRoster` | app.py:43-69 | the whole run: the score matrix, the orientation column, its value counts, and one estimate per counted orientation, each the rounding of count × total / rows and in 0..total when total ≥ 0; for a non-empty roster the estimates add up to within 2 of total |

## Left out

- Random generation, app.py:8-9 and 13-15: the fixed seed, the normal draws of the marks, and the random names, surnames and genders. These are library random streams. The raw marks are an input of the model instead, and the identity fields are not modelled.
- Floating point, app.py:9-11, 34 and 51: marks are exact integer hundredths, raw marks are exact fractions, and shares are exact fractions count/students. The model does not capture ties that binary floating point rounds differently, nor the float mean in app.py:21. At app.py:34, for example, 7 students out of 10 and 45 departments give the float product 0.7 × 45 = 31.499999999999996, which rounds to 31; the model's exact 31.5 rounds to 32.
- `Marks.Mark`: does not model numpy rounding a float64 scaled by 100. It models exact half-to-even rounding of the exact raw value.
- Truncation after rounding, app.py:34 (`astype(int)`): the rounded value is already an integer, so this step changes nothing and is not modelled.
- DataFrame building and column reordering, app.py:12 and 26-29: this is library plumbing. The model keeps the score matrix and the orientation column as arrays.
- The order of `value_counts`, app.py:49: pandas sorts the counts by size. The model keeps the counts in a map, which has no order.
- An empty roster: the input widget never asks for one. In the model an empty roster gives no counts and so no estimates.
- The input bounds of the widgets, app.py:40 and 68 (1 to 100000 students, at least 1 department): the model accepts any sizes. Each lemma states the bounds it needs.
- The whole user interface and every chart, app.py:37-107: the widgets, the tables and the pie, bar and histogram plots.
