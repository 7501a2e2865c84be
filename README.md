# Housing transparency dashboard: a verified Dafny model of its data core

The dashboard reads a housing survey (one row per respondent) and shows it in
tabs. This project models the parts of it that compute rather than draw:

- `load_data` normalises the raw answers. It cleans the list-like answer
  columns and takes each one's first answer. It parses income brackets and
  floor areas, buckets the rent burden, maps Portuguese answer codes to
  English labels, and flags each dissatisfaction reason.
- The pure and stateful helpers of five tabs:
  - the general overview: satisfaction scores, map colour bands against
    popup bands, the high rent-burden share, wording thresholds, number
    formatting and the district filter;
  - the housing distribution: birth periods and age groups, strategy
    cleaning and lookup maps, the numeric satisfaction, and the
    housing-situation filter;
  - the satisfaction levels: score and weight tables, income labels and
    their back-mapping, the two-way filter, shares of satisfied answers,
    and map bands;
  - the housing types and sizes: household size and its groups, area per
    person, typologies, area bins, and the housing adequacy index;
  - the exploratory analysis: filter options, the six-filter chain,
    categorical columns, and the correlation pairs with the strongest five.

Cells are modelled as `Missing | Str | Tokens | Number` with `real` numbers.
A table is a column list plus rows that map column names to cells. The frame
that `load_data` and the tabs change column by column is a class,
`Loading.DataFrame`. Its assignments (`df[c] = ...apply(...)`) are methods
with `modifies` clauses. Loops in the source are `while`/`for` loops with
invariants: the list-cleaning loop, the reason-flag loop, the strategy
collection loops, the categorical-column loop and the nested pair loop.

Module layout (one file each):

- `Text`: digits, Python `str(int)`, ASCII case mapping, split and join.
- `Frame`: cells, rows, selection and percentages.
- `Normalize`: the per-cell rules of `load_data`.
- `Pipeline`: the plan of assignments and the per-column facts.
- `Loading`: the `DataFrame` class and `LoadData`.
- `Scales`: the shared satisfaction tables and colours.
- One module per tab: `Overview`, `Distribution`, `SatisfactionLevels`,
  `HousingSizes`, `Explore`.

## Model

| member | source | states |
|---|---|---|
| Text.ParseNat | dashboard/app.py:82 | `int()` of a digit string succeeds exactly on non-empty all-digit text |
| Text.ParseNatRoundTrip | dashboard/app.py:82 | parsing the decimal text of n gives n back |
| Text.ParseDecimal | dashboard/app.py:95 | `float()` of a digit string is its integer value; a value is never negative; empty text fails |
| Text.DecimalOfParts | dashboard/app.py:95 | digits, a point and digits (not both empty) read as the whole part plus the fraction over 10 to the fraction's length |
| Text.DecimalOnlyParts | dashboard/app.py:95 | the converse: any text that reads as a number is plain digits or digits around exactly one point, with that value |
| Text.DecimalReadExamples | dashboard/app.py:95 | "45.5" reads as 45.5 and ".5" as 0.5 |
| Text.DecimalRejectExamples | dashboard/app.py:95-97 | "4.5.1" and "45%" fail, the `ValueError` case |
| Text.NatToString | dashboard/tabs/tab6_housing_types_sizes.py:232 | `str(n)` is non-empty, all digits, one digit below 10 |
| Text.NatToStringValue | dashboard/tabs/tab6_housing_types_sizes.py:232 | the digits of `str(n)` denote n |
| Text.Lower | dashboard/tabs/tab0_general_overview.py:344 | `.lower()` maps each character to its lower-case form, keeping the length |
| Text.Capitalize | dashboard/tabs/tab0_general_overview.py:601 | `.capitalize()` upper-cases the first character and lower-cases the rest |
| Text.JoinSplit | dashboard/app.py:29 | joining the pieces of a split with the separator gives the string back |
| Text.SplitTokensFree | dashboard/app.py:29 | no piece of a split contains the separator |
| Frame.AddColumn | dashboard/app.py:29 | after assigning a column the frame has the old columns and the new name, nothing else, one more column exactly when the name was new |
| Frame.Select | dashboard/tabs/tab7_exploratory_analysis.py:51 | a boolean mask keeps exactly the rows satisfying it, in order, as a subsequence |
| Frame.SelectCommutes | dashboard/tabs/tab7_exploratory_analysis.py:50-66 | two masks applied one after the other give the same table in either order |
| Frame.SelectSelect | dashboard/tabs/tab3_satisfaction_levels.py:143-145 | masking twice equals masking once by the conjunction |
| Frame.CountUnion | dashboard/tabs/tab6_housing_types_sizes.py:659-665 | counts of disjoint conditions add up to the count of their union |
| Frame.Percent | dashboard/tabs/tab0_general_overview.py:27-31 | a part of a positive whole is a percentage in 0..100, 100 for the whole and 0 for nothing |
| Frame.PercentShrinks | dashboard/tabs/tab6_housing_types_sizes.py:665 | the same part over a larger whole is a smaller percentage |
| Frame.PercentSum | dashboard/tabs/tab3_satisfaction_levels.py:377-394 | percentages of disjoint parts add to at most 100, exactly 100 when they cover the whole |
| Normalize.StripListMarks | dashboard/app.py:29 | stripping removes every `[`, `]` and `'` and keeps every other character |
| Normalize.CleanList | dashboard/app.py:29 | text becomes a token list, anything else becomes missing |
| Normalize.CleanListTokens | dashboard/app.py:29 | the token list is non-empty, tokens hold no bracket, quote or `", "`, and joining them with `", "` gives the stripped text |
| Normalize.Primary | dashboard/app.py:31 | a non-empty list gives one of its items; a non-list is kept |
| Normalize.PrimaryIsFirstAnswer | dashboard/app.py:29-31 | the primary answer is the stripped text up to its first `", "`; a missing cell stays missing |
| Normalize.ParseIncome | dashboard/app.py:34-54 | exactly the eight bracket codes parse, to values within 0..100000 |
| Normalize.RangeMidpoint | dashboard/app.py:80-85 | an "a-b" answer gives a midpoint that is never negative; for two digit runs it is half their sum (`Normalize.MidpointOfParts`); anything else is missing |
| Normalize.IncomeIncreasing | dashboard/app.py:34-54 | the parsed values strictly increase along the bracket order |
| Normalize.ParseArea | dashboard/app.py:75-87 | `">400"` reads as 450, text without `-` reads as missing, a value is only ever read from text and is non-negative; a missing cell reads as missing. A number cell makes the source raise (`'-' in` a float), and `Loading.LoadData` fails on it, so the value the function gives there is never used |
| Normalize.AreaOfRange | dashboard/app.py:80-83 | `"a-b"` with two digit strings reads as (a+b)/2 |
| Normalize.MidpointBetween | dashboard/app.py:80-83 | the parsed midpoint lies between a and b |
| Normalize.AreaOnlyRanges | dashboard/app.py:75-87 | any other text that parses is exactly such a two-part range |
| Normalize.BurdenLabel | dashboard/app.py:99-106 | the four burden labels split the line at 30, 50 and 80, upper ends inclusive |
| Normalize.PercentValue | dashboard/app.py:94-97 | `float(pct)`: a number is read as its own percentage, a missing cell stays missing, and text goes through the decimal reading of `Text.ParseDecimal` |
| Normalize.RentBurden | dashboard/app.py:92-106 | the result is one of five labels, "Unknown" exactly when the value is missing or unparseable |
| Normalize.BurdenMonotone | dashboard/app.py:99-106 | a larger share never gets a lower burden label |
| Normalize.VocabLookup | dashboard/app.py:59-63 | `.map(dict)` gives the listed label for a listed token and missing for anything else |
| Normalize.HousingLabels | dashboard/app.py:59-63 | the housing situation is missing or one of the three labels |
| Normalize.HousingInjective | dashboard/app.py:59-63 | different housing tokens get different labels |
| Normalize.SatisfactionInjective | dashboard/app.py:66-72 | different satisfaction tokens get different labels |
| Normalize.HouseTypeInjective | dashboard/app.py:111-114 | different house-type tokens get different labels |
| Normalize.BedroomInjective | dashboard/app.py:117-123 | different typologies get different bedroom counts |
| Normalize.EmploymentInjective | dashboard/app.py:139-146 | different employment tokens get different labels |
| Normalize.EducationInjective | dashboard/app.py:149-156 | different education tokens get different labels |
| Normalize.VocabRecoversToken | dashboard/app.py:59-156 | under an injective map, equal non-missing labels come from equal tokens |
| Normalize.ReasonFlag | dashboard/app.py:133-136 | the flag is 1 exactly when the cell is a list containing the reason, else 0 |
| Normalize.SumFlagsCountsReasons | dashboard/app.py:126-136 | the flags of distinct reasons sum to the number of those reasons given |
| Normalize.FlagsAtMostTen | dashboard/app.py:126-136 | a respondent's flags sum to at most 10 |
| Pipeline.RunAppend | dashboard/app.py:26-156 | running two plans one after the other is running their concatenation |
| Pipeline.RunWrite | dashboard/app.py:26-156 | an assignment not overwritten later leaves its column as its function of its source at that point |
| Pipeline.NormalizeRow | dashboard/app.py:24-156 | a raw column that `load_data` does not assign keeps its value in the normalised row |
| Pipeline.NormalizedIncome | dashboard/app.py:56 | `rendimento_numerical` is the parsed income of the raw bracket |
| Pipeline.NormalizedArea | dashboard/app.py:89 | `area_numerical` is the parsed raw area |
| Pipeline.NormalizedBurden | dashboard/app.py:108 | `rent_burden` is the burden label of the raw share |
| Pipeline.NormalizedHousing | dashboard/app.py:59-63 | `housing_situation` is the label of the first cleaned housing answer |
| Pipeline.NormalizedSatisfaction | dashboard/app.py:66-72 | `satisfaction_level` is the label of the first cleaned satisfaction answer |
| Pipeline.NormalizedHouseType | dashboard/app.py:111-114 | `house_type` is the label of the first cleaned house-type answer |
| Pipeline.NormalizedBedrooms | dashboard/app.py:117-123 | `bedroom_count` is the count of the first cleaned typology answer |
| Pipeline.NormalizedReasonFlag | dashboard/app.py:133-136 | each `reason_<r>` column is the flag of r in the cleaned reasons list |
| Pipeline.NormalizedEmployment | dashboard/app.py:139-146 | `employment_status` is the label of the first cleaned employment answer |
| Pipeline.NormalizedEducation | dashboard/app.py:149-156 | `education_level` is the label of the raw education answer (not a list column) |
| Pipeline.NormalizedSatisfactionAnswer | dashboard/app.py:29 | the `satisfacao` column ends up as the cleaned list of the raw answer |
| Pipeline.HousingSituationRange | dashboard/app.py:59-63 | after loading, the housing situation is missing, "Renting", "Owned" or "Living with others" |
| Loading.DataFrame.constructor | dashboard/app.py:19 | the frame holds the table's columns and rows |
| Loading.DataFrame.Assign | dashboard/app.py:56 | a column computed cell by cell from another is added or replaced on every row |
| Loading.DataFrame.AssignWith | dashboard/tabs/tab6_housing_types_sizes.py:51-56 | a column computed from whole rows is added or replaced on every row |
| Loading.CleanOne | dashboard/app.py:28-31 | one turn of the list loop: it fails exactly when the column is present and holds no text (pandas reads it as numbers and `.str` raises); otherwise the column is cleaned and its `_primary` column added, if present |
| Loading.CleanColumns | dashboard/app.py:26-31 | the list loop fails exactly when some present list column holds no text; otherwise it cleans every present list column and adds its `_primary` column |
| Loading.DeriveAnswers | dashboard/app.py:56-123 | the seven assignments between the loops, in order |
| Loading.FlagReasons | dashboard/app.py:133-136 | the reason loop adds one flag column per reason |
| Loading.DeriveBackground | dashboard/app.py:139-156 | the employment and education assignments |
| Loading.LoadData | dashboard/app.py:24-158 | missing exactly when `Loading.LoadFails`: a present list column holds no text (`.str` on a numeric column, line 29), a column read unguarded is absent (`KeyError`), or `area-util` holds a number (`'-' in` a float, line 80); otherwise same row count and order, each row normalised from its raw row alone, columns the raw ones followed by the new ones |
| Scales.ScoreCell | dashboard/tabs/tab0_general_overview.py:34-41 | `.map(table)` gives the listed number for a listed label and missing otherwise |
| Scales.ScoresCountDown | dashboard/tabs/tab3_satisfaction_levels.py:18-24 | the scores are 5, 4, 3, 2, 1 from best to worst label |
| Scales.ScoreKeys | dashboard/tabs/tab0_general_overview.py:34-40 | the score table lists exactly the five labels |
| Scales.WeightIsScoreLessThree | dashboard/tabs/tab3_satisfaction_levels.py:610-616 | each weight is its label's score less 3, on the same labels |
| Scales.WeightCellIsScoreLessThree | dashboard/tabs/tab3_satisfaction_levels.py:619-621 | weighting a cell is scoring it and subtracting 3, missing alike |
| Scales.Band.Label | dashboard/config.py:39-45 | the band of rank k is named by the label k places from the worst |
| Scales.BandColor | dashboard/config.py:39-45 | each band's colour is its label's configured colour |
| Scales.BandColorsDistinct | dashboard/config.py:39-45 | different bands get different colours, none the no-data grey |
| Overview.HousingShare | dashboard/tabs/tab0_general_overview.py:27-31 | a housing share is a percentage, NaN for an empty table |
| Overview.OverviewSharesAtMostWhole | dashboard/tabs/tab0_general_overview.py:27-31 | owned, renting and living-with-others shares add to at most 100 |
| Overview.AddSatisfactionScore | dashboard/tabs/tab0_general_overview.py:41 | the score column is the score of each row's label |
| Overview.ScoreOfAnswer | dashboard/tabs/tab0_general_overview.py:34-41 | through the loader's labels, "muito-satisfeito" scores 5 down to "muito-insatisfeito" 1 |
| Overview.StyleBand | dashboard/tabs/tab0_general_overview.py:347-356 | the lowest band exactly below 1.5 and the highest exactly from 4.5 |
| Overview.StyleBandInterval | dashboard/tabs/tab0_general_overview.py:347-356 | band k holds the scores within half a point of k+1 |
| Overview.PopupBand | dashboard/tabs/tab0_general_overview.py:436-450 | a NaN score falls to the lowest band; otherwise band k holds the scores from k + 0.5 up to k + 1.5, the outer bands open-ended |
| Overview.PopupDescriptionsDiffer | dashboard/tabs/tab0_general_overview.py:436-450 | each popup band has its own description, so the description tells the band |
| Overview.StyleMatchesPopup | dashboard/tabs/tab0_general_overview.py:436-450 | for any score the map band and the popup band agree |
| Overview.StyleColor | dashboard/tabs/tab0_general_overview.py:343-358 | grey for an unknown district, its band's colour for a known score, and the best band's colour for any district whose mean is NaN |
| Overview.NaNScorePaintedBest | dashboard/tabs/tab0_general_overview.py:343-358 | a district present with a NaN mean is painted the best band's colour while its popup gives the lowest band |
| Overview.StyleColorFixed | dashboard/tabs/tab0_general_overview.py:343-358 | corrected: grey exactly when the district is unknown or its mean is NaN, otherwise the colour of the popup's band |
| Overview.DistrictMappingRenamesMadeira | dashboard/tabs/tab0_general_overview.py:283-304 | the mapping renames only Madeira; unlisted names map to missing |
| Overview.HighBurdenPct | dashboard/tabs/tab0_general_overview.py:630-641 | a percentage, 0 when nobody rents |
| Overview.HighBurdenPctCounts | dashboard/tabs/tab0_general_overview.py:630-641 | the share is high-burden renters over renters |
| Overview.HighBurdenMeansOverHalf | dashboard/tabs/tab0_general_overview.py:417-424 | a loaded row is high-burden exactly when its raw rent share exceeds 50 |
| Overview.BurdenSeverity | dashboard/tabs/tab0_general_overview.py:670-676 | "alta" above 40, "moderada" above 20, "baixa" otherwise |
| Overview.SatisfactionWord | dashboard/tabs/tab0_general_overview.py:677-683 | "alta" from 4, "moderada" from 3, "baixa" otherwise and for NaN |
| Overview.WordingsMonotone | dashboard/tabs/tab0_general_overview.py:670-683 | both wordings never drop as their number grows |
| Overview.SwapSeparators | dashboard/tabs/tab0_general_overview.py:686-691 | the replace chain keeps the length, turns commas into points and points into commas, leaves other characters in place, and never leaves an 'X' (an 'X' already there becomes a point) |
| Overview.SwapSeparatorsInvolution | dashboard/tabs/tab0_general_overview.py:686-691 | swapping twice gives the string back |
| Overview.DistrictFilter | dashboard/tabs/tab0_general_overview.py:607-618 | "All" or no choice keeps the table; the result is a subsequence |
| Overview.DistrictFilterKeeps | dashboard/tabs/tab0_general_overview.py:607-614 | a choice keeps exactly the rows whose lower-cased district equals the lower-cased choice |
| Overview.DistrictOptionSelects | dashboard/tabs/tab0_general_overview.py:599-614 | the capitalised option of a listed district keeps exactly that district's rows |
| Distribution.LeadingDigits | dashboard/tabs/tab1_housing_distribution.py:79 | the longest all-digit prefix |
| Distribution.FirstBracketDigit | dashboard/tabs/tab1_housing_distribution.py:79 | the first `[` followed by a digit, none earlier |
| Distribution.BirthPeriod | dashboard/tabs/tab1_housing_distribution.py:79-80 | the digits after the first such `[`, missing when there is none |
| Distribution.BirthPeriodOfInterval | dashboard/tabs/tab1_housing_distribution.py:79-80 | an interval `[y...` gives birth period y |
| Distribution.AgeBin | dashboard/tabs/tab1_housing_distribution.py:85-95 | the right-closed bin holding the year, none outside (1960, 2025] |
| Distribution.AgeGroup | dashboard/tabs/tab1_housing_distribution.py:85-95 | a label exactly for a birth year in (1960, 2025], always one of the five labels; missing otherwise |
| Distribution.ApproxAge | dashboard/tabs/tab1_housing_distribution.py:83 | a birth year gives the age it has in 2025 (year plus age is 2025); a missing year gives a missing age |
| Distribution.AgeGroupAges | dashboard/tabs/tab1_housing_distribution.py:83-95 | a group exactly in (1960, 2025], ages inside the label's range, bins monotone |
| Distribution.DecadeEdgeInEarlierGroup | dashboard/tabs/tab1_housing_distribution.py:85-95 | a decade year like 1970 lands in the previous group, 1960 in none |
| Distribution.AddAgeColumns | dashboard/tabs/tab1_housing_distribution.py:79-95 | adds birth period, age and age group to every row |
| Distribution.AgeColumnsOfRow | dashboard/tabs/tab1_housing_distribution.py:79-95 | a row's age and group are those of its birth period |
| Distribution.CleanStrategy | dashboard/tabs/tab1_housing_distribution.py:309 | the cleaned label keeps the length; each '_' and '-' becomes a space, the first character is upper-cased and every later one lower-cased, index by index |
| Distribution.StrategyKey | dashboard/tabs/tab1_housing_distribution.py:339 | the key lower-cases and turns spaces into dashes |
| Distribution.KeyOfCleanStrategy | dashboard/tabs/tab1_housing_distribution.py:311-339 | the key of a cleaned answer is the raw answer exactly when it is lower-case and dash-separated |
| Distribution.StrategyKeyInjective | dashboard/tabs/tab1_housing_distribution.py:339 | different cleaned labels have different keys |
| Distribution.FlattenLength | dashboard/tabs/tab1_housing_distribution.py:348-353 | the flattened list holds every answer of every list cell |
| Distribution.CollectStrategies | dashboard/tabs/tab1_housing_distribution.py:348-353 | the extend loop yields the flattened answers |
| Distribution.UniqueStrategies | dashboard/tabs/tab1_housing_distribution.py:297-313 | the set of cleaned labels of all answers |
| Distribution.StrategyMap | dashboard/tabs/tab1_housing_distribution.py:339 | keyed by exactly the keys of the labels, each key giving a label with that key; labels of cleaned shape are each found under their own key |
| Distribution.StrategyLabelFound | dashboard/tabs/tab1_housing_distribution.py:356 | every lower-case dashed answer finds its cleaned label in the map |
| Distribution.SatisfactionValue | dashboard/tabs/tab1_housing_distribution.py:616-619 | a score 1..5 exactly when the first answer of a list is listed |
| Distribution.AnswerScoresAgree | dashboard/tabs/tab1_housing_distribution.py:607-613 | the tab's answer scores equal the loader's label then the overview's score |
| Distribution.SatisfactionValueOfRow | dashboard/tabs/tab1_housing_distribution.py:622 | on a loaded row it equals the overview's score of `satisfaction_level` |
| Distribution.AddSatisfactionNumeric | dashboard/tabs/tab1_housing_distribution.py:622 | adds the numeric satisfaction to every row |
| Distribution.HousingFilter | dashboard/tabs/tab1_housing_distribution.py:156-169 | "Todas" keeps everything; otherwise the rows whose situation equals the choice |
| Distribution.HousingFilterFixed | dashboard/tabs/tab1_housing_distribution.py:156-169 | corrected filter: "Todas" keeps every row; another choice keeps, in order, exactly the rows whose housing label is the choice's |
| Distribution.HousingFilterFindsNothing | dashboard/tabs/tab1_housing_distribution.py:156-167 | on loaded rows every choice except "Todas" finds no row |
| Distribution.HousingFilterFixedSelectsAnswer | dashboard/tabs/tab1_housing_distribution.py:156-169 | the corrected filter keeps a loaded row exactly when its first housing answer is the choice's |
| SatisfactionLevels.LevelShare | dashboard/tabs/tab3_satisfaction_levels.py:377-394 | the share of answered rows in the given levels, a percentage, NaN with no answers |
| SatisfactionLevels.LevelRate | dashboard/tabs/tab3_satisfaction_levels.py:55-58 | the header metric is never negative, and is 0 when no row has a level (`.get(label, 0)` on an empty count) |
| SatisfactionLevels.RatesAgree | dashboard/tabs/tab3_satisfaction_levels.py:55-58 | the two-label sum of `value_counts(normalize=True)` equals the share of the pair |
| SatisfactionLevels.RatesAtMostWhole | dashboard/tabs/tab3_satisfaction_levels.py:377-394 | satisfied and dissatisfied shares add to at most 100 |
| Frame.Where | dashboard/tabs/tab3_satisfaction_levels.py:314-316 | a filtered list keeps order and exactly the kept items |
| SatisfactionLevels.OrderedCols | dashboard/tabs/tab3_satisfaction_levels.py:307-316 | the pivot's labels in best-to-worst order, no others |
| SatisfactionLevels.IncomeLabelsInjective | dashboard/tabs/tab3_satisfaction_levels.py:84-105 | the labels cover exactly the codes and differ from each other |
| SatisfactionLevels.IncomeOptions | dashboard/tabs/tab3_satisfaction_levels.py:134 | an option for exactly each present code, as its label |
| SatisfactionLevels.SelectedBrackets | dashboard/tabs/tab3_satisfaction_levels.py:140 | the codes whose labels were chosen, in bracket order |
| SatisfactionLevels.IncomeRoundTrip | dashboard/tabs/tab3_satisfaction_levels.py:134-140 | mapping all offered labels back gives the present codes in bracket order |
| SatisfactionLevels.TwoWayFilter | dashboard/tabs/tab3_satisfaction_levels.py:143-151 | with no choices the table is kept; otherwise rows in the chosen levels and brackets |
| SatisfactionLevels.TwoWayIsOneSelection | dashboard/tabs/tab3_satisfaction_levels.py:143-151 | the branches equal one selection by both conditions |
| SatisfactionLevels.AddWeightColumn | dashboard/tabs/tab3_satisfaction_levels.py:619-621 | adds `satisfaction_numeric`, each row's weight of its satisfaction label, to every row |
| SatisfactionLevels.WeightStyleBand | dashboard/tabs/tab3_satisfaction_levels.py:805-814 | the lowest band exactly below -1.5 and the highest exactly from 1.5 |
| SatisfactionLevels.WeightBandsAgree | dashboard/tabs/tab3_satisfaction_levels.py:686-703 | map and popup bands agree and equal the overview's band of weight + 3 |
| SatisfactionLevels.WeightPopupBand | dashboard/tabs/tab3_satisfaction_levels.py:686-703 | a NaN mean falls to the lowest band; otherwise band k holds the weights from k - 2.5 up to k - 1.5, the outer bands open-ended |
| SatisfactionLevels.WeightPopupDescriptionsDiffer | dashboard/tabs/tab3_satisfaction_levels.py:686-703 | each popup band has its own wording, so the wording tells the band |
| SatisfactionLevels.LabelBandsAgree | dashboard/tabs/tab3_satisfaction_levels.py:610-621 | a label lands in the same band on both tabs' maps |
| SatisfactionLevels.WeightStyleColor | dashboard/tabs/tab3_satisfaction_levels.py:801-817 | grey for an unknown district, the band colour for a known score, and the best band's colour for any district whose mean is NaN |
| SatisfactionLevels.WeightNaNPaintedBest | dashboard/tabs/tab3_satisfaction_levels.py:801-817 | a district with a NaN mean is painted "Very Satisfied" |
| SatisfactionLevels.WeightStyleColorFixed | dashboard/tabs/tab3_satisfaction_levels.py:801-817 | corrected: grey exactly when the district is unknown or its mean is NaN, otherwise the colour of the popup's band |
| HousingSizes.HouseholdSize | dashboard/tabs/tab6_housing_types_sizes.py:47 | the size is never negative when neither head count is |
| HousingSizes.MissingCountReadAsZero | dashboard/tabs/tab6_housing_types_sizes.py:47 | a missing head count counts as 0 (`fillna(0)`): filling it in with 0 leaves the size unchanged |
| HousingSizes.SpacePerPerson | dashboard/tabs/tab6_housing_types_sizes.py:51-56 | present exactly for a known area and a positive size, and then times the size gives the area |
| HousingSizes.SizeGroup | dashboard/tabs/tab6_housing_types_sizes.py:231-233 | missing exactly for sizes up to 0, a chart group from size 1 on |
| HousingSizes.SizeNumeric | dashboard/tabs/tab6_housing_types_sizes.py:561-577 | a number 1..6 exactly for the six chart groups, missing otherwise |
| HousingSizes.GroupRoundTrip | dashboard/tabs/tab6_housing_types_sizes.py:231-233 | grouping then reading back gives the integer part capped at 6; below 1 gives missing |
| HousingSizes.WholeCountRoundTrip | dashboard/tabs/tab6_housing_types_sizes.py:575-577 | a whole head count n from 1 reads back as n capped at 6 |
| HousingSizes.AddHouseholdColumns | dashboard/tabs/tab6_housing_types_sizes.py:47-56 | adds size, space per person and size group to every row |
| HousingSizes.HouseholdColumnsOfRow | dashboard/tabs/tab6_housing_types_sizes.py:47-56 | the size counts missing counts as 0, the space is the area over it when both are known, the group is its group |
| HousingSizes.NoCountsNoGroup | dashboard/tabs/tab6_housing_types_sizes.py:47 | a household with no counts has no size group |
| HousingSizes.TypologyInvertsBedroomMap | dashboard/tabs/tab6_housing_types_sizes.py:368-374 | the typology relabelling undoes the loader's bedroom map both ways |
| HousingSizes.AreaBin | dashboard/tabs/tab6_housing_types_sizes.py:415-420 | the right-closed bin of an area, none outside (0, 500] |
| HousingSizes.AreaBinned | dashboard/tabs/tab6_housing_types_sizes.py:415-420 | a label exactly for an area in (0, 500], always one of the nine labels; missing otherwise |
| HousingSizes.AreaBinsOrdered | dashboard/tabs/tab6_housing_types_sizes.py:415-420 | the ">400" answer (450) falls in "400+"; bins grow with the area |
| HousingSizes.AreaPerPerson | dashboard/tabs/tab6_housing_types_sizes.py:652-656 | present exactly for a known area and a chart group, then times the size gives the area |
| HousingSizes.OvercrowdedPct | dashboard/tabs/tab6_housing_types_sizes.py:659 | NaN exactly when no household has an area per head |
| HousingSizes.AreaAdequacy | dashboard/tabs/tab6_housing_types_sizes.py:673 | NaN exactly when no household has both a known area and a size group |
| HousingSizes.OvercrowdingComplementsAdequacy | dashboard/tabs/tab6_housing_types_sizes.py:659-673 | overcrowding rate plus area adequacy is at most 100, exactly 100 when every household has an area per head |
| HousingSizes.AreaPerPersonOfGroupedRow | dashboard/tabs/tab6_housing_types_sizes.py:558-584 | in that data a household has an area per head exactly when its group is a chart group |
| HousingSizes.BedroomsOfTypology | dashboard/tabs/tab6_housing_types_sizes.py:677 | each loaded typology T0..T4+ reads as 0..4 bedrooms |
| HousingSizes.AdequateBedrooms | dashboard/tabs/tab6_housing_types_sizes.py:678-683 | an unknown bedroom count or a household of at most one is adequate; otherwise adequate exactly when the household has at most one person more than there are bedrooms |
| HousingSizes.AdequacyMonotone | dashboard/tabs/tab6_housing_types_sizes.py:678-683 | more bedrooms or fewer people never make a home inadequate; inadequate means over one person and fewer than n-1 bedrooms |
| HousingSizes.BedroomAdequacy | dashboard/tabs/tab6_housing_types_sizes.py:676-684 | NaN exactly when no household has both values |
| HousingSizes.SinglesFullyAdequate | dashboard/tabs/tab6_housing_types_sizes.py:676-684 | single-person households alone give 100 % |
| HousingSizes.AdequacyScore | dashboard/tabs/tab6_housing_types_sizes.py:688-694 | within 0..100, NaN exactly when a component is |
| HousingSizes.HousingAdequacyScore | dashboard/tabs/tab6_housing_types_sizes.py:688-694 | NaN exactly when one of the two measured components is NaN; otherwise clamped to 0..100 |
| HousingSizes.ScoreOfPercentages | dashboard/tabs/tab6_housing_types_sizes.py:688-694 | with percentage components the index is 16 + 0.4a + 0.4b, so in [16, 96] |
| HousingSizes.HousingAdequacyRange | dashboard/tabs/tab6_housing_types_sizes.py:673-694 | the table's index is NaN exactly when no household has an area and a size group or none has a size and a bedroom count; otherwise it lies in [16, 96] |
| HousingSizes.Interpretation | dashboard/tabs/tab6_housing_types_sizes.py:697-705 | "Bom" from 80, "Adequado" from 60, "Necessita Melhoria" below and for NaN |
| HousingSizes.InterpretationMonotone | dashboard/tabs/tab6_housing_types_sizes.py:697-705 | a higher index never gets a worse wording |
| Explore.LessTransitive | dashboard/tabs/tab7_exploratory_analysis.py:17 | Python's string order is transitive |
| Explore.LessTotal | dashboard/tabs/tab7_exploratory_analysis.py:17 | two different strings are ordered one way, never both |
| Explore.Insert | dashboard/tabs/tab7_exploratory_analysis.py:17 | inserting into a sorted distinct list keeps it so, adding exactly the item |
| Explore.SortedUnique | dashboard/tabs/tab7_exploratory_analysis.py:17 | strictly sorted, exactly the column's text values |
| Explore.SortedUniqueness | dashboard/tabs/tab7_exploratory_analysis.py:17-44 | two strictly sorted lists with the same members are equal |
| Explore.OptionList | dashboard/tabs/tab7_exploratory_analysis.py:17-44 | "All" then each text value once, in string order |
| Explore.OptionsIgnoreRowOrder | dashboard/tabs/tab7_exploratory_analysis.py:17-44 | the options depend only on which values occur |
| Explore.FilterStep | dashboard/tabs/tab7_exploratory_analysis.py:50-66 | identity for "All" or an absent column; otherwise exactly the rows equal to the choice, in order |
| Explore.FilterStepsCommute | dashboard/tabs/tab7_exploratory_analysis.py:50-66 | any two steps commute |
| Explore.ChainStep | dashboard/tabs/tab7_exploratory_analysis.py:50-66 | one more step leaves the rows passing all filters so far and it |
| Explore.FilterOrderIrrelevant | dashboard/tabs/tab7_exploratory_analysis.py:50-66 | the same filters in any order select the same rows |
| Explore.Narrow | dashboard/tabs/tab7_exploratory_analysis.py:50-51 | applied to the rows passing the filters so far, one more filter leaves the rows passing them and it |
| Explore.FilterTable | dashboard/tabs/tab7_exploratory_analysis.py:48-69 | the rows passing every active filter, in order, at most as many as the table |
| Explore.IncomeFilterInactive | dashboard/tabs/tab7_exploratory_analysis.py:56-57 | the loader never creates `rendimento_clean`, so the income filter never acts |
| Explore.WhereDistinct | dashboard/tabs/tab7_exploratory_analysis.py:93 | the comprehension keeps a list free of duplicates |
| Explore.CategoricalColumns | dashboard/tabs/tab7_exploratory_analysis.py:89-98 | the bracket-free typed columns in order, then each present cleaned column once; no duplicates added |
| Explore.AllPairsExactlyOnce | dashboard/tabs/tab7_exploratory_analysis.py:269-273 | every i < j < n exactly once, n(n-1)/2 pairs |
| Explore.CorrelationPairs | dashboard/tabs/tab7_exploratory_analysis.py:269-273 | the loops produce, pair by pair, the names and matrix entry of each i < j; a NaN entry is kept as a missing value |
| Explore.StrengthKey | dashboard/tabs/tab7_exploratory_analysis.py:276 | the corrected key: every number has a key of at least 0, NaN a key below 0 |
| Explore.InsertByStrength | dashboard/tabs/tab7_exploratory_analysis.py:276 | inserting keeps the list strongest first and adds exactly the item |
| Explore.SortByStrength | dashboard/tabs/tab7_exploratory_analysis.py:276 | the corrected sort: a permutation sorted by absolute value, strongest first, NaN pairs last |
| Explore.TopFive | dashboard/tabs/tab7_exploratory_analysis.py:279 | five pairs, or all when fewer |
| Explore.TopFiveStrongest | dashboard/tabs/tab7_exploratory_analysis.py:276-279 | with the corrected sort, the shown pairs come from the list, none left out is stronger than a shown one, and a numeric pair is left out only when every shown pair is numeric and at least as strong |
| Explore.StrongestShown | dashboard/tabs/tab7_exploratory_analysis.py:276-279 | a numeric pair stronger than every other pair is always among the five shown |
| Explore.ByStrengthSeenAsSorted | dashboard/tabs/tab7_exploratory_analysis.py:276 | a list already strongest first is one the source's sort leaves as it is, so without NaN the source and the corrected ordering agree on it |
| Explore.NaNHidesStrongerPair | dashboard/tabs/tab7_exploratory_analysis.py:276-279 | four pairs at 0.1, a NaN pair and a pair at 0.9 form a list the source's sort leaves unchanged; the 0.9 pair, stronger than every numeric pair shown, is left out of the source's five and is among the corrected five |
| Explore.CorrelationStrength | dashboard/tabs/tab7_exploratory_analysis.py:213-218 | strong above 0.7, moderate above 0.3, weak otherwise and for NaN |
| Explore.StrengthBySize | dashboard/tabs/tab7_exploratory_analysis.py:213-218 | the wording ignores sign and never weakens as the size grows |

## Left out

- Reading the CSV, the empty-table fallback on a read error and Streamlit's caching (dashboard/app.py:16-22, 161-164). The model starts from the table already read.
- Loading.LoadData: the three exceptions `load_data` can raise (`AttributeError` from `.str` on a list column with no text, `KeyError` for a column read without a guard, `TypeError` from `'-' in` a number in `area-util`) are modelled as a missing result rather than an exception, and which of them was raised is not kept. The columns read without a guard are listed in `Pipeline.RequiredColumns`. A column counts as holding no text when every cell is missing or a number; how pandas infers a column's type from the CSV text is not modelled beyond that.
- Text.ParseNat: Python's `int()` and `float()` also accept signs, surrounding whitespace, underscores, non-ASCII digits, "nan" and "inf"; `float()` also accepts the exponent form ("1e2", "4.5E1"). The model parses plain ASCII digit strings and plain decimals, so such text reads as failure (a rent share "1e2" is labelled "Unknown").
- Text.Lower: `.lower()` and `.capitalize()` are modelled on ASCII letters only; other characters are unchanged.
- Distribution.BirthPeriod: the regular expression `\d` also matches non-ASCII digits; the model takes ASCII digits only.
- Floating-point rounding is not modelled: all numbers are exact rationals. This affects the 0.4 and 0.2 weights of the adequacy index and the division by household size.
- Means, medians, `value_counts`, `groupby`, crosstabs, correlations and `describe` are not modelled. Where a tab compares such a number with a threshold, the number is taken as an input.
- Charts, widgets, HTML popups, GeoJSON loading, centroids and accent stripping are display or I/O code and are not modelled.
- Tab 2 (geographic analysis), tab 4 (income and housing costs) and tab 5 (education and employment) are not part of this model. Neither is the older copy of the dashboard under `streamlit/`.
- The dissatisfaction-reason counts of the satisfaction tab (dashboard/tabs/tab3_satisfaction_levels.py:413-431) are aggregation only. The reason flags they sum are modelled in `Normalize.ReasonFlag`.
- The satisfaction tab's district mapping (dashboard/tabs/tab3_satisfaction_levels.py:741-767) is the same table as the overview's and is modelled once, as `Overview.DistrictMapping`.
- HousingSizes.HouseholdSize: a head-count cell holding text is read as 0. pandas would fail or concatenate instead; the survey's counts are numeric or missing.
- Explore.OptionList: only text values become options. A number in one of the six filter columns is not listed; `load_data` puts only labels or missing values in them.
- Explore.SortByStrength: this is the corrected ordering, with NaN last. What CPython's sort does with NaN keys is captured only by `Explore.SeenAsSorted`, the case where it leaves the list unchanged; its merge steps are not modelled. Python's sort is stable. The model's insertion keeps earlier pairs ahead of equally strong later ones, but no lemma states it.
- Explore.CategoricalColumns: which columns pandas types as text or category depends on the data, so that list is an input.
- The pair loop's matrix is an input: computing correlations is floating-point statistics. A NaN entry, which `.corr()` gives for a column constant over the rows it shares with the other, is a missing value.
- Explore.TopFiveStrongest: holds of the corrected sort, not of the source's. With a NaN pair the source can leave a stronger pair out of the five (see Findings).

## Findings

| source | as written | input that shows it | evidently intended | confidence | as-written member | corrected member |
|---|---|---|---|---|---|---|
| dashboard/tabs/tab1_housing_distribution.py:156-169 | the filter compares `housing_situation` with "Arrendamento", "Casa Própria" or "Others". The loader only ever writes "Renting", "Owned", "Living with others" or missing | any loaded table and the choice "Arrendamento": no row is kept, whatever the answers | keep the rows whose housing answer is the chosen one (arrendo, comprei, outrem) | high; not executed | Distribution.HousingFilterFindsNothing | Distribution.HousingFilterFixedSelectsAnswer |
| dashboard/tabs/tab0_general_overview.py:343-358 | a district whose mean score is NaN passes every `<` test as false and is painted "Very Satisfied" green. The popup puts it in the lowest band | a district all of whose answers lack a satisfaction level, such as "lisboa" with mean NaN | show such a district as having no data (grey) | high; not executed | Overview.NaNScorePaintedBest | Overview.StyleColorFixed |
| dashboard/tabs/tab3_satisfaction_levels.py:801-817 | the same NaN case on the weight map: painted "Very Satisfied", while the popup says "Very Low Satisfaction" | a district such as "porto" with NaN mean weight | grey for no data | high; not executed | SatisfactionLevels.WeightNaNPaintedBest | SatisfactionLevels.WeightStyleColorFixed |
| dashboard/tabs/tab7_exploratory_analysis.py:276-279 | `sort(key=lambda x: abs(x[2]), reverse=True)` compares NaN keys as neither smaller nor larger, so a NaN pair stops the sort from moving stronger pairs past it | pairs at 0.1, 0.1, 0.1, 0.1, NaN, 0.9 in loop order: the list is left unchanged and the 0.9 pair is not among the five shown | show the five strongest numeric correlations, NaN pairs last | medium; not executed | Explore.NaNHidesStrongerPair | Explore.TopFiveStrongest |
