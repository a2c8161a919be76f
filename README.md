# Soil ratings: CSR2 and the Illinois Productivity Index

This project models the two per-map-unit soil-rating calculators of the
`ssurgo_db` repository and proves properties of them in Dafny.

- **CSR2** (`soil_scripts/csr2.py`) is the Iowa Corn Suitability Rating 2.
  - The `calc_*` helpers each turn one attribute of a component row into a
    penalty: particle size, water-holding capacity, erosion tolerance,
    ponding, flooding, slope, local conditions, and a manual "EJ" correction.
  - `calc_csr2` scores one map unit in order:
    1. early exits (Gullied Land, Urban Land, non-irrigated class 5w,
       Miscellaneous Area);
    2. a taxonomy filter;
    3. flood disqualification;
    4. a per-component water-holding capacity summed over the horizons, with
       components without horizons dropped;
    5. a left merge with the May month records;
    6. a per-component score `max(5, s − m − w − f − d − ej)`;
    7. the rounded, area-weighted, floored unit score.
  - `process_csr2` first extends the EJ addition table with the '221B' map
    units, then scores every map unit in order.
- **PI** (`soil_scripts/pi_calc.py`) is the Illinois Productivity Index.
  - A soil symbol is parsed into a soil code, one of eight slope-band letters
    `A`–`H` and an optional sub-slope digit.
  - The rated base value is scaled by the `letters` table entry for that band
    and column, then rounded.

Modules:

| file | module | models |
|---|---|---|
| wrappers.dfy | `Wrappers` | `Option`, `Result`, dictionary lookup with a default |
| rounding.dfy | `Rounding` | Python's `round` on a number: nearest integer, ties to even |
| text.dfy | `Text` | substring test (`in`), `str.split` on one character and its inverse `join` |
| survey.dfy | `Survey` | the survey rows: map units, components, horizons, month records |
| csr2_factors.dfy | `Csr2Factors` | `calc_mfactor` … `calc_ej` |
| csr2.dfy | `Csr2`, `Csr2Examples` | `calc_csr2`, `process_csr2` (class `Csr2Tables`), worked units |
| pi_calc.dfy | `PiCalc` | the `letters` table, `calculate_pi_val`, `process_pi` |

How the model reads the pandas code:

- **Row labels.** `x in series` on a pandas Series tests the row labels, not
  the values. The Miscellaneous Area test (csr2.py:146) and the three flood
  tests (csr2.py:174-181) are therefore modelled as tests on a `rowLabel`
  field. `Csr2.ReadComponentsNotMiscellaneous` and
  `Csr2.ReadMonthsNeverDisqualify` prove that these tests never fire on
  frames read from the database, which are labelled by position. The
  `.values` tests at csr2.py:140-142 look at values.
- **Empty frames.** A unit with no components at all scores 5: the taxonomy
  filter leaves nothing. A unit whose filtered components all lack horizon
  rows fails scoring (`Csr2.Csr2Error.NoComponentWithHorizons`): after
  `dropna` the frame is empty, and assigning the result of `apply` on an
  empty frame to the `d_fact` column raises.
- **`calc_dfactor` can return None.** It returns None for an integer `tfact`
  outside 1..5. The component's csr2 column is then NaN, and `.sum()` skips
  it. The model's component score is `None`, and that term adds 0 to the sum.
- **The May merge is taken literally.** A component with two May records
  appears twice and is weighted twice. A component with no May record
  appears once, with missing flood and pond classes.
- **Python arithmetic.** `int()` truncates toward zero (`Csr2Factors.Trunc`);
  `round` rounds half to even (`Rounding.RoundHalfEven`). The PI factors are
  held exactly, in hundredths.
- **Frames and tables are parameters.** The survey frames, the four CSR2
  lookup tables and the ratings table are passed in as parameters. The
  contents of `csr2_dcts` are not part of this model.

Consequences of the code as written:

- The Miscellaneous Area and flood tests in `calc_csr2` look at row labels,
  as above, so on frames read from a database a "Very frequent" month record
  never forces 5 (`Csr2.ReadMonthsNeverDisqualify`).
- The "Frequent" and "Long" parts of the paired flood tests are looked for
  independently, not within one month record.
- A per-unit failure is meant to be logged and skipped. As written, it ends
  the whole batch (see "## Findings").

## Model

| member | source | states |
|---|---|---|
| Rounding.RoundHalfEven | soil_scripts/csr2.py:227 | the result is within a half of x, and is even when x is exactly half-way |
| Rounding.RoundHalfEvenUnique | soil_scripts/csr2.py:227 | every integer within a half of x, and even on a tie, is the rounding of x |
| Rounding.RoundHalfEvenOfInt | soil_scripts/pi_calc.py:61 | an integer rounds to itself |
| Rounding.RoundHalfEvenMonotone | soil_scripts/csr2.py:227 | rounding is monotone |
| Text.ContainsAt | soil_scripts/csr2.py:21-23 | `sub in s` holds when `sub` occurs at some position of `s` |
| Text.ContainsWitness | soil_scripts/csr2.py:21-23 | when `sub in s` holds, `sub` occurs at some position of `s` |
| Text.ContainsChar | soil_scripts/pi_calc.py:39 | a one-character substring test is membership |
| Text.FirstIndex | soil_scripts/pi_calc.py:40 | the first position holding c: c is there and nowhere before |
| Text.LastIndex | soil_scripts/pi_calc.py:41 | the last position holding c: c is there and nowhere after |
| Text.Split | soil_scripts/pi_calc.py:40-41 | `str.split` gives at least one piece |
| Text.JoinSplit | soil_scripts/pi_calc.py:40-41 | joining the pieces with the separator gives the string back |
| Text.SplitPiecesFree | soil_scripts/pi_calc.py:40-41 | no piece contains the separator |
| Text.SplitAbsent | soil_scripts/pi_calc.py:38-41 | without the separator the only piece is the whole string |
| Text.SplitFirst | soil_scripts/pi_calc.py:40 | `split(c)[0]` is the text before the first c |
| Text.SplitLast | soil_scripts/pi_calc.py:41 | `split(c)[-1]` is the text after the last c |
| Text.SplitCountsAtLeastTwo | soil_scripts/pi_calc.py:40-41 | a string containing c splits into at least two pieces |
| Survey.Str | soil_scripts/csr2.py:113-115 | `str()` of a missing cell is "None", of a text the text itself |
| Csr2Factors.MFactor | soil_scripts/csr2.py:13-25 | a listed class gives its table value plus 5 if calcareous; an unlisted skeletal class gives exactly 12; otherwise 5 if and only if calcareous, else 0 |
| Csr2Factors.MFactorMissing | soil_scripts/csr2.py:15-20 | a missing class scores as "", so the `val is None` branch is never taken |
| Csr2Factors.WFactor | soil_scripts/csr2.py:28-39 | the result is in {0, 8, 12, 24, 99}; 99 if and only if non-numeric; for a number, 24 exactly below 3.01, 12 exactly from 3.01 to below 6.00, 8 exactly from 6.00 to below 9.0, 0 exactly from 9.0 on |
| Csr2Factors.WFactorBoundary | soil_scripts/csr2.py:33-39 | 3.00 gives 24 and 3.01 gives 12; 6.0 gives 8; 9.0 gives 0 |
| Csr2Factors.WFactorAntitone | soil_scripts/csr2.py:33-39 | more water-holding capacity is never penalised more |
| Csr2Factors.Trunc | soil_scripts/csr2.py:46-58 | Python `int()` of a number truncates toward zero |
| Csr2Factors.DFactor | soil_scripts/csr2.py:42-59 | Histosols or a non-numeric tfact gives 0; otherwise defined if and only if the truncated t is in 1..5, with value 10×(5−t) |
| Csr2Factors.DFactorAntitone | soil_scripts/csr2.py:50-59 | a larger tolerance factor is never penalised more |
| Csr2Factors.PondFactor | soil_scripts/csr2.py:62-71 | the result is in {0, 20, 44}; 20 or 44 exactly for a listed brief or long duration with Frequent/Occasional frequency |
| Csr2Factors.FloodFactor | soil_scripts/csr2.py:74-93 | the result is in {0, 2, 4, 5, 6, 10, 20, 34}; 0 for any frequency other than Frequent/Occasional; each of those two has its own value set |
| Csr2Factors.FrequentLongFloodUnpenalised | soil_scripts/csr2.py:74-93 | Frequent flooding of long or very long duration scores 0, below Occasional flooding of the same duration |
| Csr2Factors.SlopeFactor | soil_scripts/csr2.py:96-108 | never negative; 0 when non-numeric; for a number, 0 exactly below 2, 5 exactly from 2 to below 5, 15 exactly from 5 to below 9, and 3×slope from 9 on |
| Csr2Factors.SlopeFactorMonotone | soil_scripts/csr2.py:102-108 | a steeper slope is never penalised less |
| Csr2Factors.ConditionFactor | soil_scripts/csr2.py:111-117 | the result is in {0, 3, 40, 43}; at least 40 exactly for a channeled phase; odd exactly for erosion class 2 |
| Csr2Factors.EjFactor | soil_scripts/csr2.py:120-129 | subst[compname] − add[compname] − add[mukey], where a missing key counts 0 |
| Csr2.UnitComponents | soil_scripts/csr2.py:137 | exactly the components of the unit are kept |
| Csr2.TaxonomyFiltered | soil_scripts/csr2.py:163-167 | exactly the components whose subgroup is listed with a factor above −100 are kept |
| Csr2.MonthsOf | soil_scripts/csr2.py:171-172 | exactly the month records of the kept components are kept |
| Csr2.WaterCapacityAppend | soil_scripts/csr2.py:192-194 | the grouped water sum adds over concatenated horizon lists |
| Csr2.WaterCapacityNonNegative | soil_scripts/csr2.py:192-194 | well-formed horizons give a non-negative capacity |
| Csr2.WithWater | soil_scripts/csr2.py:188-196 | a component survives the merge and `dropna` if and only if it has horizon rows, and carries its own summed capacity |
| Csr2.MayRecordsMembership | soil_scripts/csr2.py:182-185 | a component's May records are exactly the flood and pond fields of its month records whose month is "May" |
| Csr2.MergeOne | soil_scripts/csr2.py:204 | row i is the component, with its capacity, and May record i; with no May record, exactly one row with missing flood and pond fields |
| Csr2.MergeMay | soil_scripts/csr2.py:204 | the left merge has at least as many rows as there are components (each component's presence is `Csr2.MergeMayMembership`) |
| Csr2.MergeMayMembership | soil_scripts/csr2.py:204 | every component appears with its first May record, or with missing fields; every row is a component with one of its own May records, or with missing fields when it has none |
| Csr2.MergeMayOneRowEach | soil_scripts/csr2.py:204 | with at most one May record per component, one row per component |
| Csr2.MergeMayDuplicates | soil_scripts/csr2.py:204 | a second May record duplicates the component row |
| Csr2.AtLeastFive | soil_scripts/csr2.py:217-219 | `5 if x < 5 else x`: exactly 5 below 5, exactly x from 5 on |
| Csr2.FFactor | soil_scripts/csr2.py:205-210 | the summed flood, pond, slope and condition penalty is never negative |
| Csr2.ComponentScore | soil_scripts/csr2.py:199-219 | undefined exactly when the d factor is; otherwise max(5, s−m−w−f−d−ej): the raw value from 5 on, exactly 5 below |
| Csr2.UnitScore | soil_scripts/csr2.py:221-227 | exactly 5 when the weighted sum is below 5; from 5 on, within a half of the sum and even on a tie |
| Csr2.WeightedSumAppend | soil_scripts/csr2.py:222-223 | the weighted sum adds over concatenated components |
| Csr2.WeightedSumBounds | soil_scripts/csr2.py:221-223 | the weighted sum lies between 0 and total share/100 × the largest score |
| Csr2.UnitScoreSixtyForty | soil_scripts/csr2.py:221-227 | shares 60/40 with scores 70/50 give 62 |
| Csr2.TermsAppend | soil_scripts/csr2.py:221-223 | the weighted terms of concatenated rows are the concatenated terms |
| Csr2.MergeMayTermsPerComponent | soil_scripts/csr2.py:204-223 | with at most one May record per component, the merged rows give exactly one term per component, so the sum is the per-component sum of share/100 × score |
| Csr2.ScoreFiltered | soil_scripts/csr2.py:167-227 | nothing kept gives 5; a flood disqualification gives 5; fails if and only if no kept component has horizons; a success is at least 5 (a success on the scoring path is the rounded, floored per-component weighted sum: `Csr2.ScoreFilteredValue`) |
| Csr2.ScoreFilteredValue | soil_scripts/csr2.py:199-227 | a success on the scoring path is the rounded, floored per-component weighted sum: `UnitScore` of one term (share, score) per component with horizons, when each has at most one May record |
| Csr2.Csr2Score | soil_scripts/csr2.py:132-227 | a success is 0 or at least 5 |
| Csr2.Csr2EarlyExits | soil_scripts/csr2.py:140-147 | the exits in order: Gullied Land 5, Urban Land 5, class 5w 25, the Miscellaneous label 0, else the filtered scoring; 0 only from the Miscellaneous test |
| Csr2.Csr2NoListedSubgroup | soil_scripts/csr2.py:163-169 | past the exits, a unit with no listed subgroup scores 5 |
| Csr2.ReadComponentsNotMiscellaneous | soil_scripts/csr2.py:146-147 | on positionally labelled frames the Miscellaneous Area test never fires |
| Csr2.ReadMonthsNeverDisqualify | soil_scripts/csr2.py:174-181 | on positionally labelled frames no flood test disqualifies |
| Csr2.Csr2ScoreOnReadFrames | soil_scripts/csr2.py:132-227 | on frames read from a database a success is at least 5, and scoring fails exactly when no exit applies, some component is kept and none of them has horizons |
| Csr2.RowsBy | soil_scripts/csr2.py:244-257 | no more rows than map units (one row at most per unit is `Csr2.RowsByStep`) |
| Csr2.RowsByAppend | soil_scripts/csr2.py:244-249 | rows come out in map-unit order |
| Csr2.RowsByStep | soil_scripts/csr2.py:244-249 | one more unit appends that unit's row, if any |
| Csr2.RowsByMembership | soil_scripts/csr2.py:244-254 | (k, v) is emitted if and only if k is a unit whose scoring gives v |
| Csr2.Csr2RowsMembership | soil_scripts/csr2.py:244-254 | a unit that scores v gives the row (k, v); a unit whose scoring fails gives no row |
| Csr2.RowsAsWrittenBy | soil_scripts/csr2.py:244-254 | as written, a failed batch names a unit whose scoring failed |
| Csr2.RowsAsWrittenAgrees | soil_scripts/csr2.py:244-254 | as written, the batch succeeds if and only if every unit scores, and then yields the intended rows |
| Csr2.UpdatedEjAdd | soil_scripts/csr2.py:239-241 | every '221B' unit maps to 10; every other key is kept, with its value, and nothing is added |
| Csr2.EjAfter221B | soil_scripts/csr2.py:239-241 | after the update a '221B' unit's correction takes away exactly 10 for the unit |
| Csr2.Csr2Tables.constructor | soil_scripts/csr2.py:7-10 | the four tables are the given ones |
| Csr2.Csr2Tables.ProcessCsr2 | soil_scripts/csr2.py:238-259 | the EJ addition table becomes the '221B'-updated table before scoring; the result is the intended rows, scored with the updated table, in map-unit order |
| Csr2Examples.SixtyFortyUnit | soil_scripts/csr2.py:132-227 | a unit of two penalty-free components (flat slope, other optional cells missing, enough water) at 60/40 % with subgroup factors 70/50 scores 62 |
| Csr2Examples.NoPenalties | soil_scripts/csr2.py:190-212 | missing cells, a flat slope (below 2 %) and empty tables give no m, w, f, d or ej penalty |
| Csr2Examples.BatchStopsAtFailingUnit | soil_scripts/csr2.py:244-254 | a batch of a 5-scoring unit and a failing unit: the intended rows keep the first unit; as written the batch fails |
| PiCalc.TableShape | soil_scripts/pi_calc.py:10-19 | eight bands of six factors |
| PiCalc.FactorsInUnitInterval | soil_scripts/pi_calc.py:10-19 | every factor is in (0, 1] |
| PiCalc.ColumnsDecreaseWithSlope | soil_scripts/pi_calc.py:10-19 | each column strictly decreases from A to H |
| PiCalc.RowsDecreaseWithSubSlope | soil_scripts/pi_calc.py:10-19 | within a row, columns 0 > 1 > 2 and 3 > 4 > 5 |
| PiCalc.UnfavourableNotAboveFavourable | soil_scripts/pi_calc.py:10-19 | each unfavourable column is at most its favourable counterpart |
| PiCalc.BandIndex | soil_scripts/pi_calc.py:10-19 | the band letter's row in the table |
| PiCalc.Factor | soil_scripts/pi_calc.py:61 | `letters[letter][column]` is in (0, 1] |
| PiCalc.FirstRated | soil_scripts/pi_calc.py:51-52 | the first ratings row with the symbol |
| PiCalc.SubSlope | soil_scripts/pi_calc.py:42 | the sub-slope is non-empty exactly when the text after the letter is "2" or "3", and is then that text |
| PiCalc.ScanLetters | soil_scripts/pi_calc.py:35-43 | after the loop the letter is empty or one band letter; with no letter all three variables are empty |
| PiCalc.ParseStepMatched | soil_scripts/pi_calc.py:39-43 | a matched letter sets the soil code to the text before its first occurrence and the sub-slope from the text after its last |
| PiCalc.ScanLettersLastWins | soil_scripts/pi_calc.py:38-43 | the last band letter, in A..H order, that occurs in the code decides the parse |
| PiCalc.ScanLettersNone | soil_scripts/pi_calc.py:35-43 | a code with no band letter leaves all three variables empty |
| PiCalc.Resolved | soil_scripts/pi_calc.py:45-47 | an empty soil code means band A and no sub-slope; otherwise the parse is kept |
| PiCalc.Column | soil_scripts/pi_calc.py:52-59 | the column is below 6; below 3 if and only if favourable; its remainder mod 3 is 0, 1, 2 for "", "2", "3" |
| PiCalc.PiValue | soil_scripts/pi_calc.py:32-61 | None if and only if the symbol is unrated; otherwise round(value × factor) of the first rating row and the parsed symbol |
| PiCalc.CalculatePiVal | soil_scripts/pi_calc.py:32-61 | the loop's result is `PiValue`; None if and only if the symbol is unrated |
| PiCalc.PiWithoutLetterIsValue | soil_scripts/pi_calc.py:45-61 | a favourable rated symbol with no band letter has index round(value), the value times band A's first factor 1 |
| PiCalc.PiWithoutLetterIntegerValue | soil_scripts/pi_calc.py:45-61 | such a symbol with an integer value keeps that value |
| PiCalc.LeadingLetterMeansBandA | soil_scripts/pi_calc.py:38-47 | a code starting with its winning letter is band A with no sub-slope |
| PiCalc.ParsedBandIsLastLetter | soil_scripts/pi_calc.py:38-47 | a code not starting with its winning letter keeps that letter's parse |
| PiCalc.PiBetweenZeroAndValue | soil_scripts/pi_calc.py:61 | for a non-negative base value the index lies between 0 and the rounded base value |
| PiCalc.ScaledBetween | soil_scripts/pi_calc.py:61 | scaling by a factor in (0, 1] stays between 0 and the value |
| PiCalc.ParseExample171B2 | soil_scripts/pi_calc.py:38-47 | "171B2" parses as soil 171, band B, sub-slope "2" |
| PiCalc.PiExample171B2 | soil_scripts/pi_calc.py:32-61 | a favourable "171B2" rated 100 has index 95 |
| PiCalc.ProcessPi | soil_scripts/pi_calc.py:64-68 | one row per map unit, in order, with the key unchanged and pi the value `calculate_pi_val` gives its symbol (`PiValue`): None exactly for unrated symbols |

## Left out

- Reading the geodatabase layers and the ratings CSV (csr2.py:232-236, pi_calc.py:29, 65). The frames and tables are parameters.
- `print` and `utils.log_event`. Logging has no counterpart; the handler's failure is modelled in "## Findings".
- The contents of `csr2_dcts` (`DCT_SFAC`, `DCT_MFAC`, `DCT_EJ_ADD`, `DCT_EJ_SUBST`). The tables are arbitrary maps.
- Binary floating point. Capacities, slopes, shares and PI factors are exact reals, so ties in `round` are exact ties here and may not be in IEEE arithmetic. NaN inputs are not modelled, apart from the NaN score modelled as `None` and the rows `dropna` removes.
- Csr2Factors.SlopeFactor: a missing `slope_r` is modelled as non-numeric, giving 0. In pandas the cell is NaN, `float(nan)` succeeds, and the component's score becomes NaN, so its term would drop out of the sum.
- Csr2Factors.SlopeFactor: a numeric text `slope_r` such as "3.5" is a number or a non-number (`Num`) here. In Python `float("3.5")` succeeds and the comparison `val < 2` in `calc_slope` (csr2.py:102) then raises.
- Survey: missing text cells are Python None. Where a frame holds NaN instead, `'skeletal' in nan` raises and the unit's scoring fails; that failure path is not modelled.
- Csr2.Csr2Score: the only failure modelled is the empty frame after `dropna`. Other exceptions that malformed cells could raise are not modelled.
- Horizon depths and available water are not nullable. The `dpth` column (csr2.py:193) and the column selection at csr2.py:149-161 affect no result and are left out.
- The progress report every 500 units (csr2.py:256-257).
- The importer's skipping of map units already stored (import_soils.py) is not part of this model.

## Findings

| source | as written | input that shows it | evidently intended | confidence | as-written member | corrected member |
|---|---|---|---|---|---|---|
| soil_scripts/csr2.py:250-254 | the except branch calls `utils.log_event(..., ltype='ERROR')`, but `log_event(txt)` (soil_scripts/utils.py:7) takes no `ltype`, so the handler raises TypeError and the first unit that fails to score ends the whole batch | units "u0" (no components, scores 5) and "u1" (one listed component, no horizon rows): the batch fails instead of giving the row ("u0", 5) | a unit whose scoring fails is logged and skipped, and the batch goes on | not executed; high, since a plain Python function rejects an unknown keyword argument | Csr2.RowsAsWrittenBy, Csr2Examples.BatchStopsAtFailingUnit | Csr2.Csr2Tables.ProcessCsr2, Csr2.RowsByMembership |
