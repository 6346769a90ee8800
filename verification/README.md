# Loyalty-points reporting core, in Dafny

This project models the data-transformation core of a loyalty-programme
reporting dashboard, and proves properties of that model. The dashboard
turns a ledger of point transactions into report tables. Each transaction
carries a customer, a date, an amount of points, a loyalty code, a
description and a journal number.

- **Classification and cleaning.** Every loyalty code is sorted into one of
  eight business categories by a first-match cascade of rules
  (`CodeClassifier`). The raw export is cleaned: test rows and rows with an
  unparsable date are dropped, a missing code becomes the placeholder
  `"None"`, and the description is normalised. A lottery campaign named in
  the description overwrites the code (`DatasetBuilder`).
- **User-month table.** Transactions are summed per customer and month into
  user-months: points, number of transactions, distinct codes and distinct
  active days. Two flags are added: `Reached_1000_Flag` (at least 1000
  points) and `Inactive` (at most one transaction) (`UserMonths`).
- **Segmentation.** User-months are segmented as Inactive, Achiever,
  High_Effort, Explorer, Consistent or Irregular_Participant, by quantile
  thresholds. The pipeline does this three times: two override cascades
  with English and Mongolian labels, and one if/elif chain. `Segmentation`
  proves the three agree on every input.
- **Report tables.** These are derived from the ledger and the user-month
  table:
  - monthly statistics and new users (`MonthlyStats`);
  - point-bucket histograms, cutoff counts and withdrawal eligibility
    (`Buckets`, `PointHistograms`);
  - the reach-frequency distribution (`ReachFrequency`), over all user-months and per year;
  - the transaction summary and its (month × category) padding
    (`TransactionSummary`);
  - the growth movers (`GrowthMovers`);
  - the normalised code profile of achievers (`NormalizedProfile`);
  - the segment-loyal summary (`SegmentLoyal`);
  - the month-by-month milestone table (`MilestoneByMonth`).

  The properties proved are partition, sum conservation, monotonicity,
  bounds and ordering.

Shared pieces: `Wrappers` (`Option`), `Strings` (the string methods the
pipeline calls, including the ASCII and Cyrillic case mapping), `Ledger`
(the cleaned transaction, periods, year slices) and `Grouping` (group-by as
key functions: `Keys` lists each group that occurs exactly once,
`CountKey` and `SumKey` give a group's size and sum, and `PartitionCount`
and `PartitionSum` prove that the groups add up to the whole).

Three behaviours of the code worth stating:
- **Amounts may be negative.** Non-numeric amounts become 0, but negative
  amounts are kept. `NormalizedProfile.ProfileAtMost1000` shows what this
  means for the profile's bound.
- **No missing code reaches the classifier.** The classifier sends a
  missing code to Financial Transactions. But the builder fills missing
  codes with `"None"` first, so this branch is never reached, and such rows
  are Other.
- **The 0.0 fallback is not everywhere.** The page-4 precomputation falls
  back to 0.0 for the achiever quantile of a year without achievers. The
  page-5 loader and the page-5 view do not, and keep NaN, which no
  comparison satisfies.

## Model

| member | source | states |
|---|---|---|
| CodeClassifier.MapCodeGroup | data/data_pre_compute.py:107-182 | a missing code is Financial Transactions; any other code gets the group of the first rule of the ordered rule table that fires on its stripped, upper-cased form, and Other when none fires |
| CodeClassifier.ClassifierIsTotal | data/data_pre_compute.py:107-182 | every input, missing or not, gets exactly one of the eight category names, and the eight names are distinct |
| CodeClassifier.NamesIdentifyGroups | data/data_pre_compute.py:113-182 | two categories print the same name only if they are the same category |
| CodeClassifier.NormalizeIdempotent | data/data_pre_compute.py:111 | stripping and upper-casing an already normalised code changes nothing |
| CodeClassifier.ClassifyDependsOnlyOnNormalForm | data/data_pre_compute.py:111 | a code and its normalised form fall in the same category |
| CodeClassifier.NormalCodeIsFixed | data/data_pre_compute.py:111 | a code without surrounding white space and without lower-case letters is its own normal form |
| CodeClassifier.CascadeIsFirstMatch | data/data_pre_compute.py:113-182 | the nested if-chain equals an ordered rule table in which the first rule that fires decides, and Other is the default |
| CodeClassifier.RuleOrderMatters | data/data_pre_compute.py:125-170 | "ARD_SEC" fires both the account-opening and the investment rules; with the table's order it is Account Opening, with those two rules swapped it would be Investments & Securities |
| CodeClassifier.ArdSecInTable | data/data_pre_compute.py:125-131 | the rule table puts "ARD_SEC" in Account Opening |
| CodeClassifier.GroupOfNormalCode | data/data_pre_compute.py:107-111 | for an already normalised code, the category of the code is the cascade's verdict on it |
| ClassifierExamples.OpenTransactionOpensAccount | data/data_pre_compute.py:125-140 | "10K_OPEN_TRANSACTION" matches the financial substring rule, yet it is Account Opening, because that rule comes first |
| ClassifierExamples.ArdSecOpensAccount | data/data_pre_compute.py:125-170 | "ARD_SEC" also matches the investment rule, yet it is Account Opening |
| ClassifierExamples.LotteryCodesAreMerchant | data/data_pre_compute.py:145-152 | both codes the reclassification writes, "ARD_LOTTO" and "10K_GET_LOTTO", are Merchant & Lifestyle |
| ClassifierExamples.Inf1072IsInvestment | data/data_pre_compute.py:163-180 | "INF1072X" is Investments & Securities: the 1072 marker is checked before the INF-digits campaign rule |
| ClassifierExamples.NonePlaceholderIsOther | data/data_pre_compute.py:107-182 | the placeholder "None" is Other, while a truly missing code would be Financial Transactions |
| DatasetBuilder.NormalizeDescription | data/data_pre_compute.py:222-232 | a missing description becomes the empty one; the result has no full stop and no upper-case letter; a description that is already clean comes out unchanged |
| DatasetBuilder.DescriptionIgnoresSurroundingSpace | data/data_pre_compute.py:224 | white space around a description never changes its cleaned form |
| DatasetBuilder.CyrillicCryptoWeekMarker | data/data_pre_compute.py:226-235 | a description holding either Cyrillic spelling of the crypto-week campaign carries the crypto-week marker once cleaned |
| DatasetBuilder.DescriptionKeepsText | data/data_pre_compute.py:224-232 | without a Cyrillic spelling of the campaign, the cleaned description is the stripped one with its full stops dropped, lower-cased, every other character kept in order |
| DatasetBuilder.NoCyrillicSpellingLeft | data/data_pre_compute.py:226-232 | no cleaned description contains either Cyrillic spelling, not even one that removing full stops joins together |
| DatasetBuilder.Reclassify | data/data_pre_compute.py:234-241 | the crypto-week marker gives ARD_LOTTO even when a lotto keyword is present; otherwise a lotto keyword gives 10K_GET_LOTTO; otherwise the code is unchanged |
| DatasetBuilder.ReclassifyIdempotent | data/data_pre_compute.py:234-241 | applying the two masked writes again changes nothing, and the result is the old code or one of the two lottery codes |
| DatasetBuilder.CleanRow | data/data_pre_compute.py:189-244 | a row is dropped exactly when it is a test row or its date did not parse; a kept row keeps its customer, date and journal, gets 0 points for a missing amount, the cleaned description, the reclassified code (with "None" for a missing one) and that code's category |
| DatasetBuilder.BuildDataset | data/data_pre_compute.py:189-244 | the output has one row per kept raw row, every output row is the cleaning of some raw row, and every kept raw row's cleaning is in the output |
| DatasetBuilder.BuildDatasetConcat | data/data_pre_compute.py:189-244 | the cleaning is row by row: cleaning two exports one after the other is cleaning their concatenation |
| DatasetBuilder.BuildDatasetSingle | data/data_pre_compute.py:189-244 | a one-row export gives its cleaned row when it is kept, and nothing otherwise |
| DatasetBuilder.MissingCodeIsOther | data/data_pre_compute.py:196-198 | a kept row with a missing code and no lottery marker gets code "None" and category Other, never Financial Transactions |
| DatasetBuilder.LotteryRowsAreMerchant | data/data_pre_compute.py:234-244 | a row whose description names a lottery campaign ends up as Merchant & Lifestyle |
| DatasetBuilder.LottoDescriptionGetsLottoCode | data/data_pre_compute.py:224-244 | a raw description that, without full stops and lower-cased, names a lottery keyword and not the crypto-week campaign gives a 10K_GET_LOTTO row of Merchant & Lifestyle |
| DatasetBuilder.LottoExample | data/data_pre_compute.py:224-241 | a kept row described "LOTTO 6/42." gets the description "lotto 6/42" and the code 10K_GET_LOTTO |
| DatasetBuilder.CyrillicCryptoWeekIsArdLotto | data/data_pre_compute.py:226-235 | both Cyrillic spellings of the crypto-week campaign lead to the code ARD_LOTTO |
| Ledger.MonthRange | data/data_pre_compute.py:296 | the month-end bins: consecutive calendar months from the first to the last, each once |
| Ledger.FilterYear | data/data_loader.py:59-62 | the slice holds exactly the rows of the year, each as often as in the ledger (equal multisets on that year), and no other row |
| Ledger.FilterYearConcat | data/data_loader.py:59-62 | the mask works row by row, so the slice keeps the ledger's order |
| Ledger.FilterYearIdempotent | data/data_loader.py:59-62 | slicing a year twice is slicing it once, and slices of different years are disjoint |
| UserMonths.Aggregate | data/data_pre_compute.py:611-620 | a group's points are the sum of its rows; its count is the group's size (or its number of journal numbers); its codes and days are its numbers of distinct codes and dates, at least one each in a non-empty group |
| UserMonths.UsersAgg | data/data_loader.py:114-125 | one user-month per group that occurs, each group once, each with at least one code and one active day |
| UserMonths.UsersAggRows | data/data_loader.py:114-125 | every row of the user-month table is the aggregate of its group |
| UserMonths.UsersAggConserves | data/data_pre_compute.py:611-620 | the user-months' points and counts add up to the points and rows of the ledger |
| UserMonths.ByPeriodConserves | data/data_pre_compute.py:270-274 | grouping by customer and month loses no row and no point |
| UserMonths.InactiveIsSingleRow | data/data_pre_compute.py:622-623 | when counting rows, a user-month is inactive exactly when it holds one transaction |
| UserMonths.JournalCountCanBeZero | data/data_loader.py:116-128 | counting journal numbers, a user-month of two rows without journal numbers has count 0 and is inactive |
| UserMonths.YearSliceGroupsAgree | data/data_pre_compute.py:608-617 | within one year, grouping by month number and by calendar month give the same sizes and sums |
| Segmentation.SegmentOf | data/data_pre_compute.py:648-672 | the precedence: Inactive, then Achiever, then High_Effort, then Explorer or Consistent, then Irregular_Participant |
| Segmentation.ConditionsDisjoint | data/data_pre_compute.py:649-657 | no user-month meets both the Explorer and the Consistent conditions |
| Segmentation.OverrideIsPrecedence | data/data_pre_compute.py:648-672 | the last-write-wins overrides label every user-month with its highest-precedence segment, for any label set |
| Segmentation.IfElifIsPrecedence | page5.py:47-65 | the if/elif chain labels every user-month with its highest-precedence segment |
| Segmentation.IfElifEqualsOverrides | page5.py:47-65 | for all thresholds, including NaN, the if/elif chain and the loader's override cascade give the same label |
| Segmentation.ThreeCascadesAgree | data/data_loader.py:149-164 | the page-4 English label, renamed, is the loader's label, which is the if/elif chain's label |
| Segmentation.RenameLabels | data/data_loader.py:156-162 | renaming an English segment label gives that segment's Mongolian label |
| Segmentation.FlagsDecideFirst | page5.py:26-53 | Inactive always gives Идэвхгүй, and a non-inactive achiever always gives Амжилттай |
| Segmentation.NoAchieversMeansHighEffort | data/data_pre_compute.py:637-662 | in a year without achievers, every active non-achiever user-month is High_Effort |
| Segmentation.LoaderHasNoFallback | data/data_loader.py:145-160 | with no achievers, the loader's NaN quantile never gives Их_чармайлттай, so it disagrees with page 4's 0.0 fallback on every active non-achiever |
| Segmentation.AssignSegments | data/data_loader.py:149-164 | the same user-months in the same order, each with the label of its highest-precedence segment, and Идэвхгүй for every inactive one |
| Segmentation.SegmentCountsPartition | data/data_pre_compute.py:677-681 | a month's segment counts add up to the number of its user-months |
| SegmentLoyal.SegmentLoyalSummary | data/data_pre_compute.py:684-706 | one row per (segment, code) that occurs, each labelled with one of the six segments and carrying the points of its rows |
| SegmentLoyal.RowHasUserMonth | data/data_pre_compute.py:684-697 | the inner join keeps every transaction: each one's user-month is in the year's user-month table |
| SegmentLoyal.SegmentLoyalConserves | data/data_pre_compute.py:684-706 | for any thresholds, the summary carries every point of the year exactly once |
| MonthlyStats.StatOf | data/data_pre_compute.py:295-332 | a month's points are its rows' sum; its users are its distinct customers, which are its user-months; passed counts its user-months of at least 1000, failed the rest, new users its customers' first months |
| MonthlyStats.EmptyMonthIsZero | data/data_pre_compute.py:296-332 | a month without transactions has a row of zeros |
| MonthlyStats.BusyMonthHasUsers | data/data_pre_compute.py:296-299 | a month with a transaction has at least one user |
| MonthlyStats.MonthlyRewardStat | data/data_pre_compute.py:295-333 | no rows for an empty ledger, and each row is the statistics of its month |
| MonthlyStats.SummaryMonths | data/data_pre_compute.py:296 | the rows are consecutive calendar months from the earliest to the latest month with a transaction, so every transaction's month has a row |
| MonthlyStats.Percentage | data/data_pre_compute.py:317-319 | the pass percentage is undefined exactly when the month has no users; otherwise it is passed × 100 / users, lies in [0, 100], and is 100 exactly when every user passed |
| MonthlyStats.PercentageUndefinedIffEmpty | data/data_pre_compute.py:296-319 | a month's percentage is undefined (NaN) exactly when the month has no transaction |
| MonthlyStats.UserMonthsPerPeriod | data/data_pre_compute.py:270-301 | a month's user-months number exactly its distinct customers |
| MonthlyStats.PassedAndFailed | data/data_pre_compute.py:304-315 | passed is at most users, and users minus passed counts the user-months below 1000 |
| MonthlyStats.FirstMonthsAreCustomers | data/data_pre_compute.py:321-323 | the first-month user-months number exactly the distinct customers: each customer has one first month |
| MonthlyStats.NewUsersCountCustomers | data/data_pre_compute.py:321-332 | the new users of all months add up to the number of distinct customers |
| PointHistograms.PointBinsValid | data/data_pre_compute.py:508-513 | the point bins are 12 valid left-closed buckets |
| PointHistograms.PointBucketCoverage | data/data_pre_compute.py:508-521 | a total has a bucket exactly when it is non-negative; 0-49 holds exactly [0, 50) and 1000+ holds exactly the totals of at least 1000 |
| PointHistograms.MonthBucketCountsPartition | data/data_pre_compute.py:501-527 | a month's bucket counts add up to its user-months with a non-negative total, and never exceed its user-months |
| PointHistograms.MonthPercentsSumTo100 | data/data_pre_compute.py:529-533 | a month's unrounded bucket percentages add up to 100 |
| PointHistograms.CutoffMonotone | data/data_pre_compute.py:338-348 | a higher cutoff never counts more user-months |
| PointHistograms.CutoffBounded | data/data_pre_compute.py:338-348 | a cutoff count never exceeds the month's failed count, and a cutoff of 1000 or more counts nothing |
| PointHistograms.TabBinsValid | page5.py:421-432 | the tab-2 bins (also used at page1.py:367-376, see `MilestoneByMonth.TopBucketIsReached`) and the tab-5 bins are valid exactly when the largest total is at least 1000, with 4 and 11 buckets |
| PointHistograms.TabBinsCover | page5.py:421-432 | with valid bins, every total in [0, max] lands in a tab-5 bucket and in a tab-2 bucket (the bins of page1.py:367-376) |
| PointHistograms.Tab5Counts | page5.py:421-440 | the tab-5 histogram exists exactly when some customer-month reaches 1000, and then has 11 buckets |
| PointHistograms.Tab5CountsPartition | page5.py:421-442 | the tab-5 bucket counts add up to the customer-months with a non-negative total |
| PointHistograms.WithdrawalRules | page5.py:446-461 | buckets from 500-599 up may withdraw at the discount, only 1000+ may withdraw now, and now implies at the discount |
| PointHistograms.LiftNonNegative | page5.py:463-481 | current successes ≤ discounted successes ≤ total users, so the lift is never negative |
| Buckets.Bucket | data/data_pre_compute.py:515-521 | a value has a bucket exactly when it is inside the bins, and its bucket's left edge is at most the value |
| Buckets.BucketIsInterval | data/data_pre_compute.py:515-521 | bucket i holds exactly the values in [edge i, edge i+1) |
| Buckets.Cut | page5.py:427-432 | cutting succeeds exactly when the edges increase, and then gives each value its bucket |
| Buckets.HistogramPartition | data/data_pre_compute.py:523-527 | the bucket counts add up to the number of values inside the bins |
| Buckets.Percents | data/data_pre_compute.py:529-533 | each percentage is its count over the sum of the counts, times 100 |
| Buckets.PercentsSumTo100 | data/data_pre_compute.py:529-533 | the unrounded percentages of a non-empty histogram add up to 100 |
| Buckets.ShareBounds | page1.py:131-132 | a share of a positive total lies in [0, 100], is 100 exactly for the whole and 0 exactly for nothing |
| ReachFrequency.FrequencyTable | data/data_loader.py:167-184 | every row has times ≥ 1, its users is the number of customers with exactly that times (at least one), and Total is times × users |
| ReachFrequency.TableHas | data/data_loader.py:176-181 | every customer whose times lies in 1..m has the row of that times |
| ReachFrequency.ReachFrequencyTable | data/data_loader.py:167-184 | a row's Number_of_Users is the number of achiever customers who reached 1000 points exactly Times_Reached_1000 times, and Total is their product |
| ReachFrequency.ReachFrequencyComplete | data/data_loader.py:170-181 | every achiever customer's Times_Reached_1000 has its row |
| ReachFrequency.TimesInRange | data/data_loader.py:168-174 | each achiever customer reached the milestone between once and the number of achiever user-months |
| ReachFrequency.ReachFrequencyAscending | data/data_loader.py:176-181 | rows are strictly ascending by times |
| ReachFrequency.ReachFrequencyConserves | data/data_loader.py:167-184 | Number_of_Users adds up to the distinct achiever customers, and Total adds up to the achiever user-months |
| ReachFrequency.YearReachFrequency | data/data_pre_compute.py:555-578 | the precomputed table of a year: users counts the customers with exactly that many achiever months in that year, and Total is times × users |
| ReachFrequency.YearReachFrequencyConserves | data/data_pre_compute.py:555-578 | within a year, Number_of_Users adds up to that year's distinct achievers and Total to that year's achiever months |
| ReachFrequency.YearAchieverHasRow | data/data_pre_compute.py:565-575 | a customer who reached 1000 points in a month of a year has a row in that year's table, so one who reached it in two years counts in both |
| TransactionSummary.GroupedReward | data/data_pre_compute.py:364-370 | one row per category and month that occur, with no pair twice, and every transaction's pair has a row |
| TransactionSummary.GroupedRewardConserves | data/data_pre_compute.py:364-370 | the grouped reward carries every point of the ledger exactly once |
| TransactionSummary.SummaryRow | data/data_pre_compute.py:373-384 | frequency is the group's size, amount its points, users its number of distinct customers (between 1 and the frequency for a group that occurs), and the description the lookup's entry or the code |
| TransactionSummary.Summary | data/data_pre_compute.py:373-386 | no (code, month, category) twice, every row is the summary row of its group, and every row has 1 ≤ users ≤ frequency |
| TransactionSummary.SummaryHasRow | data/data_pre_compute.py:373-384 | every transaction has its summary row, described from the lookup or by its own code |
| TransactionSummary.SummaryConserves | data/data_pre_compute.py:373-386 | the frequencies add up to the number of transactions, and the amounts to the ledger's points |
| TransactionSummary.Product | data/data_pre_compute.py:405-411 | the pad grid holds exactly the (month, category) pairs of the listed months and categories, months × categories of them |
| TransactionSummary.ProductDistinct | data/data_pre_compute.py:405-411 | distinct months and categories give a grid without repeats |
| TransactionSummary.PadLength | data/data_pre_compute.py:405-425 | the padded table has the summary's rows plus one placeholder per empty slot |
| TransactionSummary.PadCovers | data/data_pre_compute.py:405-425 | every month and category of the summary together get at least one padded row |
| TransactionSummary.PadKeepsSummary | data/data_pre_compute.py:413-425 | every summary row survives the padding |
| TransactionSummary.PadRowsAreSummaryOrPlaceholder | data/data_pre_compute.py:413-425 | a padded row is a summary row or a "__PAD__" placeholder of an empty slot |
| TransactionSummary.CodeGroupMap | data/data_pre_compute.py:431-437 | one entry per category that occurs, no category twice, each listing its codes without repeats, as many as the category's distinct codes |
| TransactionSummary.CodeIsListed | data/data_pre_compute.py:431-437 | every transaction's code is listed under its category |
| TransactionSummary.CodeListedInItsGroup | data/data_pre_compute.py:431-437 | a code listed under a category has a transaction in that category |
| TransactionSummary.CodeListsDisjoint | data/data_pre_compute.py:431-437 | when categories are the classifier's verdicts, no code is listed under two categories |
| GrowthMovers.MoversMonthly | data/data_pre_compute.py:440-446 | no row for the "None" placeholder, no (year, code, month) twice, and each row sums its group |
| GrowthMovers.MoversMonthlyConserves | data/data_pre_compute.py:440-446 | the monthly mover table carries every point of the kept rows exactly once |
| GrowthMovers.CodeStat | data/data_loader.py:65-69 | a code has a row exactly when it is active in more than 6 months with a positive first-month sum; first and last are the sums of its earliest and latest months, and pct is the growth from first to last |
| GrowthMovers.PctThreshold | data/data_loader.py:70-71 | with a positive first month, growth above 20 percent is exactly 5·last > 6·first |
| GrowthMovers.TopMoversQualify | data/data_loader.py:65-72 | every returned code is active in more than 6 months, starts positive, grew more than 20 percent and ends above 100,000 |
| GrowthMovers.TopMoversAreTheTop | data/data_loader.py:71-72 | a qualifying code left out means four codes were returned, none growing less than it |
| GrowthMovers.TopMoversShape | data/data_loader.py:71-72 | at most four codes, by non-increasing growth, and all qualifying codes when fewer than four |
| GrowthMovers.FirstAndLastMonths | data/data_pre_compute.py:440-446 | the first and last values are the sums of the earliest and the latest active month of the year |
| NormalizedProfile.Profile | data/data_loader.py:187-227 | profile rows only for achiever months, never for the insurance code, each (customer, month, code) once, each worth its points over its month's total × 1000; every non-insurance code of an achiever month has its row |
| NormalizedProfile.NormalizedIsShare | data/data_loader.py:197-218 | a group's normalised points are its points over its month's total (insurance included) × 1000 |
| NormalizedProfile.ProfileIs1000 | data/data_loader.py:194-218 | an achiever month without the insurance code has normalised points adding up to exactly 1000 |
| NormalizedProfile.ProfileAtMost1000 | data/data_loader.py:194-218 | a month's normalised points add up to at most 1000 exactly when its insurance points are not negative |
| NormalizedProfile.AveragedProfile | page5.py:218-237 | one entry per code that occurs in the profile, each the mean of the code's column over all user-months, a missing cell counting as 0 |
| NormalizedProfile.AveragedSum | page5.py:224-237 | the averaged profile adds up to the mean over the user-months of their summed points |
| NormalizedProfile.AveragedProfileIs1000 | data/data_loader.py:194-218 | without insurance rows in achiever months, the averaged profile adds up to exactly 1000, so the renormalisation leaves it unchanged |
| NormalizedProfile.Renormalize | page5.py:242-246 | renormalising fails exactly on a zero sum, and otherwise keeps the codes in order |
| NormalizedProfile.RenormalizedSumsTo1000 | page5.py:242-246 | the renormalised averaged profile adds up to 1000 |
| NormalizedProfile.InsuranceFilterRemovesNothing | page5.py:210-249 | the late insurance filter removes no row, since no profile row has that code |
| MilestoneByMonth.MonthlyCustomerPoints | page1.py:18-29 | one row per (month, customer), each with that pair's points |
| MilestoneByMonth.RowHasCustPoints | page1.py:18-29 | every transaction's (customer, month) has a row |
| MilestoneByMonth.MonthlyCustomerPointsConserves | page1.py:18-29 | the customer points add up to the ledger's points, and the rows' sizes to its transactions |
| MilestoneByMonth.ReachedRowOf | page1.py:44-56 | per month, reached plus not reached is the number of customers with a row that month |
| MilestoneByMonth.ReachedTable | page1.py:44-67 | months strictly in calendar order within 1-12, each with at least one customer, and each row holds that month's reached and missed customer-months (`ReachedRowOf`) |
| MilestoneByMonth.ReachedTableCovers | page1.py:44-67 | a calendar month is in the table exactly when some customer has a row in it |
| MilestoneByMonth.ReachedTableConserves | page1.py:44-56 | the reached column counts the achievers, the other column the rest, and together all customer-months |
| MilestoneByMonth.Percentage | page1.py:131-132 | the reached percentage lies in [0, 100], is 100 exactly when nobody missed and 0 exactly when nobody reached |
| MilestoneByMonth.TopBucketIsReached | page1.py:367-376 | with the tab-2 bins over the largest total, every non-negative total has a bucket, and the 1000+ bucket is exactly the reached one |

## Left out

- I/O: reading and writing parquet and CSV, directory creation, the loaders of precomputed tables and the pipeline's prints. Each table is a function of its input rows; the description lookup is a parameter.
- Memoisation (`st.cache_data`): a cached call is modelled as the function it caches.
- The dashboard-level `data_loader.py` (a file read plus a filter to dates from 2025). Its callers group by month number, and this model gives them exactly that key.
- Date parsing and formatting (`%d-%b-%y`, `to_period`, `strftime`): a parsed date is an `Option<Date>`, and a period is a (year, month) pair.
- Quantile computation (pandas linear interpolation): the thresholds are parameters of type `Option<real>`, with `None` for NaN.
- Float presentation: `.round(1)` and `.round(2)` percentages, the string `'%'` suffix and the `EPS = 1e-6` pad values. Percentages are exact reals, and the pad value is the exact real 0.000001.
- Non-integer amounts: `pd.to_numeric` may yield fractional points; amounts are integers here, and negative amounts are kept.
- Unicode case mapping: `Lower` and `Upper` cover ASCII and the Cyrillic block the descriptions use.
- `Dominant_Code_Group` (page5.py:21): pandas `mode` tie-breaking is library behaviour, and no other column reads it.
- The transformation of page5.py's `get_user_df` (page5.py:12-30) into the loader's user-month table: both are `UsersAgg` with journal counting; its quantile lines 37-46 are parameters.
- Row orders decided by `sort_values` on ties: the final sort of the padded summary (data/data_pre_compute.py:424) and the tie order of the growth movers (data/data_loader.py:72). The models state membership and counts for these tables, and the movers' order only up to ties.
- NormalizedProfile.AveragedProfile: the descending `Normalized_Points` sort of page5.py's tab 3 (page5.py:238-240) is not modelled; the codes are listed in `Keys` order.
- GrowthMovers.FirstAndLastMonths: `first` and `last` are modelled as the values of the earliest and the latest month. The source takes the first and last rows after the precomputed table's sort (data/data_pre_compute.py:445), which is the same when that sort holds.
- The description column (`DESC`) of page5.py's tab 3 and of the segment-loyal summary: a lookup with no property to state.
- SegmentLoyal.SegmentLoyalSummary: the two-step sum (per customer, code and month, then per segment and code) is modelled as one grouping of the rows. Both add up the same rows.
- `build_loyal_avg_by_year` (data/data_pre_compute.py:538-551) and page1.py's `get_freq`: report tables outside this core.
- MilestoneByMonth.ReachedTable: lists month numbers 1-12 in order, not month names; `MONTH_NAME` is the name of `MONTH_NUM`, and both group the same rows.
- Plotting and page layout (Streamlit, Plotly), and the pages that only read precomputed tables.
- Output row order: pandas `groupby` sorts its groups, and the code re-sorts at data/data_pre_compute.py:369 and :706. The models state each table's rows as a set of distinct groups and do not fix their order, except the monthly statistics and the milestone table, which are in calendar order.
- PointHistograms.MonthBucketCounts: returns all 12 bucket counts of a month, zeros included, while the `observed=True` grouping of data/data_pre_compute.py:523-527 emits a row only for a non-empty bucket. A zero count stands for a row the source does not emit; it adds nothing to the month's `transform("sum")` (:529-533), so the shares of the buckets that are emitted are the same.
- IsDigit: only the ASCII digits count. Python's `str.isdigit` (data/data_pre_compute.py:179) also accepts other Unicode digits, so a code such as "INF" followed by four Arabic-Indic digits is a campaign there and not here.
- UsersAgg: the loader's `astype("int32")` on the amounts (data/data_loader.py:43) truncates fractional points and does not keep amounts outside the 32-bit range. Amounts are unbounded integers here.
- Percentage: the `.round(2)` is left out, and NaN is `None`.
- The customer-month grouping with `pd.Grouper` (data/data_pre_compute.py:271) is taken to list only observed (customer, month) pairs, as `observed=True` asks; the month-level grouping at line 296 does emit empty months, and `MonthlyRewardStat` models them.
