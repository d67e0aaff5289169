# Company matching strategies, modelled in Dafny

This project models the matching engine of `companylookup.py`. The engine
takes a registry of company records and the customer name and address that
were extracted from one invoice. It returns the candidate companies as
`{company_code, company_name}` entries. A `CompanyMatcher` holds one strategy
and the registry, and hands each invoice to that strategy. There are four
strategies:

- **External lookup.** Sends the normalized customer name to an external
  service and reports the records it answers with.
- **Combined fuzzy with refinement.** Scores every row's combined name,
  alternate names, postal code and city against the invoice's name, postal
  code and city, and keeps the ten best rows.
  - Rows scoring 90 or more are reported.
  - Rows scoring from 60 up to 90 are reported only if their street scores
    at least 80 against the invoice's street.
- **Fuzzy name / fuzzy street / exact city / exact postal code.** Scans the
  registry row by row.
- **Exact name / fuzzy street / exact city / exact postal code.** Scans the
  registry row by row, comparing names exactly.

Each strategy has a gate, `dict_has_required_fields`. The gate says whether
the invoice carries what the strategy needs.

Modules:

- `Wrappers`: `Option` and `Result`.
- `Seqs`: order-preserving filtering and subsequences.
- `Text`: `safe_string`, Python's `split`/`join`/`strip`, ASCII case folding
  and `unique_words`.
- `Scoring`: the three similarity scorers and `process.extract`.
- `Registry`: company rows and match entries.
- `Invoices`: the extracted fields, the gates, and the invoice object whose
  address components are normalized in place.
- `ScanStrategies`: the two row-scanning strategies.
- `CombinedStrategy`: the combined strategy.
- `Matcher`: the external lookup strategy, dispatch and `CompanyMatcher`.

The similarity scorers `fuzz.ratio`, `fuzz.token_sort_ratio` and
`fuzz.token_set_ratio` belong to a library outside this model. They are
parameters (`Scorers`), and nothing is assumed about them. A few lemmas add
the hypothesis `ratio(s, s) == 100`. `process.extract` is modelled as a
stable descending sort of the scores, cut to `limit` entries.

A Python exception raised by dereferencing an absent field becomes a
`Failure(MissingFieldAtExecution(field))`. The field named is the first
absent one, in the order the code touches them.

Some of what the code does is easy to misread, and the model follows the
code exactly:

- The combined strategy does not pass the customer name through
  `safe_string`.
- The combined strategy's street query reads the component `house`, not
  `houseNumber` (companylookup.py:121). In practice only `streetAddress`
  contributes.
- Only the ten best-scoring rows are ever classed as strong or weak
  (companylookup.py:78). A row outside them is never reported, however high
  its score.
- In the scan strategies the street comparison is not case-folded. Only the
  name and the city are.
- The region check is always true.

## Model

| member | source | states |
|---|---|---|
| Text.SafeString | companylookup.py:32-33 | the result contains no `\n`, `\r` or `\t` and has no whitespace at either end |
| Text.WithoutKeepsOrder | companylookup.py:33 | `replace(c, '')` is the filter that drops `c`: every other character is kept, in order |
| Text.SafeStringKeeps | companylookup.py:32-33 | the result is the input without its `\n`, `\r` and `\t`, the other characters in their order, with only whitespace cut from either end |
| Text.SafeStringOfClean | companylookup.py:32-33 | a string without those characters and without surrounding whitespace is left unchanged |
| Text.SafeStringIdempotent | companylookup.py:32-33 | applying `safe_string` twice is the same as applying it once |
| Text.Dedup | companylookup.py:99-100 | the kept tokens are pairwise distinct and are exactly the input tokens |
| Text.DedupFirstOccurrenceOrder | companylookup.py:99-100 | the kept tokens appear in the order of their first occurrences in the input |
| Text.UniqueWordsScan | companylookup.py:98-101 | the one-pass scan with a `seen` set computes `unique_words` |
| Text.UniqueWordsTokens | companylookup.py:98-101 | the tokens of the result are the distinct input tokens in first-occurrence order, pairwise distinct, and no token is lost |
| Text.UniqueWordsIdempotent | companylookup.py:98-101 | `unique_words(unique_words(s)) == unique_words(s)` |
| Text.UniqueWordsExample | companylookup.py:98-101 | `unique_words("A B A C B") == "A B C"` |
| Text.SplitJoin | companylookup.py:101 | joining words with single spaces and splitting again gives the words back |
| Text.JoinNonEmptyTokens | companylookup.py:95 | joining the non-empty parts with spaces and splitting gives the tokens of all the parts, so empty fields contribute nothing |
| Text.JoinNonEmptySkipsEmpty | companylookup.py:95 | dropping an empty part does not change the tokens of the joined text |
| CombinedStrategy.CombineNameAddressTokens | companylookup.py:93-96 | the combined text is the distinct tokens of name, alternate names, postal code and city in first-occurrence order, single-spaced, with empty fields left out |
| CombinedStrategy.CombinedColumn | companylookup.py:110 | the derived column has one entry per registry row |
| CombinedStrategy.RefineQueryIgnoresHouseNumber | companylookup.py:121-122 | the street query does not depend on `houseNumber`; without a `house` component its tokens are the distinct tokens of the case-folded `streetAddress` |
| Scoring.SortByScoreElements | companylookup.py:78 | ranking the scored rows permutes them: same multiset, same members |
| Scoring.SortByScoreSorted | companylookup.py:78 | ranking orders the scored rows by decreasing score |
| Scoring.SortByScoreDistinct | companylookup.py:78 | ranking rows with distinct indices keeps the indices distinct |
| Scoring.Extract | companylookup.py:78 | `process.extract` returns `min(limit, number of rows)` entries |
| Scoring.ExtractFacts | companylookup.py:78 | the extracted entries are sorted best first, name each row at most once, carry that row's own score, and any row left out scores no more than every row returned |
| CombinedStrategy.RankedHitsPartition | companylookup.py:77-81 | strong hits score at least 90, weak hits from 60 up to below 90, no row is both, and there are at most 10 hits in all |
| CombinedStrategy.RankedHitsComplete | companylookup.py:79-80 | among the extracted rows, a row is strong if and only if it scores at least 90, and weak if and only if it scores in [60, 90) |
| CombinedStrategy.RankedHitsAreTopRows | companylookup.py:77-81 | every hit is an extracted row with its own token-sort score, and no row outside the top ten outscores any hit |
| CombinedStrategy.RefineResults | companylookup.py:83-86 | no query leaves no result; otherwise the result is the records that pass the last query, in order |
| CombinedStrategy.RefinedByStreet | companylookup.py:83-86 | refining by street keeps exactly the records whose street has a token-set score of at least 80, in their original order, one entry each |
| CombinedStrategy.RefinedIsSubseq | companylookup.py:85 | the refined records are a subsequence of the weak records |
| CombinedStrategy.AppendFinalResults | companylookup.py:88-91 | the result is the given list followed by one `{Code, Name}` entry per record; nothing is removed or merged |
| CombinedStrategy.StrongHitJustified | companylookup.py:79 | every strong hit is a registry row whose combined text scores at least 90 against the query |
| CombinedStrategy.WeakHitJustified | companylookup.py:80 | a weak hit whose street passes refinement is a registry row scoring from 60 up to below 90 against the query and at least 80 on its street |
| CombinedStrategy.RefinedEntryJustified | companylookup.py:123-128 | each refined record is a registry row scoring from 60 up to below 90 against the query and at least 80 on its street |
| CombinedStrategy.StrongRowsJustified | companylookup.py:79 | every strong entry belongs to a registry row scoring at least 90 against the query |
| CombinedStrategy.RefinedRowsJustified | companylookup.py:123-128 | every refined entry belongs to a registry row scoring from 60 up to below 90 against the query and at least 80 on its street |
| CombinedStrategy.CombinedMatchesRanked | companylookup.py:103-135 | among the ten best rows by token-sort score, each carrying its own row's score, the entries are first those of the rows scoring at least 90 (and only those), in rank order, then those of the rows scoring from 60 up to below 90 whose street scores at least 80 (and only those), in rank order |
| CombinedStrategy.HitsJustified | companylookup.py:113-133 | strong entries followed by refined entries make at most 10 entries, each one from a justified registry row |
| CombinedStrategy.CombinedMatchesJustified | companylookup.py:103-135 | the combined strategy returns at most 10 entries; each one belongs to a row that scores at least 90, or at least 60 with a street score of at least 80 |
| CombinedStrategy.ExecuteCombined | companylookup.py:103-135 | the combined strategy raises on the first fault in the order the code meets them: a missing CustomerName or CustomerAddress, then a registry without rows (assigning the `Combined` column fails), then a missing valueString or valueAddress; otherwise it returns the strong matches followed by the refined weak matches |
| CombinedStrategy.CombinedGateRulesOutFaults | companylookup.py:65-75 | when the combined gate holds, the strategy raises exactly when the registry has no rows, and otherwise returns the combined matches of the invoice's name and address components |
| Invoices.GatesRejectMissingOrDoubtfulFields | companylookup.py:138-152 | every gate is false without `CustomerName`; the combined and scan gates are false when either confidence is 0.8 or less; the scan gate is false when `houseNumber`, `road`, `city` or `postalCode` is absent or empty |
| Invoices.NormalizeComponentsIdempotent | companylookup.py:159-160 | normalizing already normalized components changes nothing |
| Invoices.Invoice.NormalizeAddressComponents | companylookup.py:159-160 | after the loop every component holds `safe_string` of its old value, the keys are unchanged, and nothing else in the invoice changes |
| ScanStrategies.ScanRegistry | companylookup.py:165-177 | the row loop emits one entry per qualifying row, in registry order |
| ScanStrategies.ExecuteScan | companylookup.py:154-179 | the fuzzy-name strategy raises on the first missing field in the order the code reads them; otherwise it normalizes the components in place and returns the scan of the normalized name and components |
| ScanStrategies.ScanSelectsQualifyingRows | companylookup.py:165-177 | a row is reported if and only if its name matches, its street ratio exceeds 80, its case-folded city equals the invoice's and its postal code is equal; entries follow registry order, one per row |
| ScanStrategies.RatioOfEightyIsRejected | companylookup.py:176 | a name or street ratio of exactly 80 does not match |
| ScanStrategies.ScanIgnoresCase | companylookup.py:167-169 | changing the case of registry or invoice names and cities does not change which rows qualify |
| ScanStrategies.ScanOfOneRow | companylookup.py:210-222 | a single row at the invoice's street, city and postal code is reported exactly when the names match |
| ScanStrategies.ExactNameFindsRow | companylookup.py:210-222 | the exact-name strategy reports a row at the invoice's address whose name equals the invoice name up to case ("Acme Inc" finds "Acme Inc") |
| ScanStrategies.AcmeIncorporated | companylookup.py:210-222 | for the row "Acme Inc", the invoice name "ACME INCORPORATED" finds nothing by exact name, and finds the row by fuzzy name exactly when the name ratio exceeds 80 |
| ScanStrategies.ExactScanWithinFuzzyScan | companylookup.py:212 | if `ratio(s, s) == 100`, the exact-name entries are a subsequence of the fuzzy-name entries |
| ScanStrategies.ExactRunWithinFuzzyRun | companylookup.py:198-224 | the exact-name strategy fails exactly when the fuzzy-name strategy fails, leaves the invoice the same way, and its entries are a subsequence of the fuzzy-name entries |
| ScanStrategies.ScanRunNormalizesComponents | companylookup.py:204-205 | after a run that found the name and the address block, every component equals `safe_string` of its old value, and the keys and the name are unchanged |
| ScanStrategies.ScanRunTwice | companylookup.py:198-224 | running a scan strategy again on the invoice it has normalized gives the same entries and leaves the invoice as it is |
| ScanStrategies.ScanGateRulesOutFaults | companylookup.py:182-196 | when the scan gate holds, neither scan strategy raises |
| Matcher.ExecuteExternal | companylookup.py:39-61 | the lookup strategy raises without a name or its text; otherwise it sends `safe_string` of the name and returns one entry per answered record, or nothing on a failed request |
| Matcher.ExternalRunReportsAnswer | companylookup.py:43-58 | with a successful answer, the lookup strategy reports one `{code, name}` entry per answered record, in order |
| Matcher.ExternalRunFailedRequest | companylookup.py:59-61 | a failed request yields no entries and no fault |
| Matcher.ExternalGateAdmitsNameWithoutText | companylookup.py:36-43 | the lookup gate accepts a name field without text, and the lookup strategy then raises on `valueString` |
| Matcher.CompanyMatcher.constructor | companylookup.py:230-232 | the matcher keeps the strategy and the registry it is given |
| Matcher.CompanyMatcher.MatchCompanies | companylookup.py:234-235 | matching delegates to the chosen strategy; its entries, faults and invoice updates are that strategy's |
| Matcher.ApplicableRunSucceeds | companylookup.py:65-75 | when a strategy's gate holds, running it succeeds exactly unless it is the combined strategy on a registry without rows; the lookup strategy also needs the name's text |
| Matcher.MatchTwice | companylookup.py:234-235 | matching the same invoice twice against the same registry gives the same outcome both times |

## Left out

- The HTTP request of the external lookup strategy is left out, with its JSON decoding and the `print` on a failed status. The service is a parameter that maps the sent name to `(code, name)` records, or to nothing for a failed status. A record without `code` or `name` is not modelled.
- The internals of `fuzz.ratio`, `fuzz.token_sort_ratio` and `fuzz.token_set_ratio` are left out, because they belong to an outside library. This includes the preprocessing `process.extract` applies to the query and the choices, which is folded into the scorer.
- `Text.Lower`: `str.casefold` is modelled for the ASCII letters only. Other characters are left as they are.
- Confidences are `real` values, and the floating-point comparison `> 0.8` is taken as exact. A missing confidence would raise `TypeError` in a gate; the model assumes it is always present.
- An empty `CustomerName` dictionary is falsy in Python and fails the lookup gate. The model's name field always has a confidence, so it cannot be empty.
- Registry cells are always strings, so NaN cells and a missing column (a malformed registry row) are left out.
- `df.iloc[match[2]]` treats the index label as a position. The model assumes the registry has the default positional index.
- On a registry without rows, pandas' `DataFrame.apply(..., axis=1)` returns a copy of the frame rather than a column, so the assignment at companylookup.py:110 raises. The model reports this as the single fault `CombinedColumnOfEmptyRegistry`. The pandas exception type and message are not modelled. The scan strategies loop over no rows and return no entries.
- The `Combined` column the combined strategy adds to the caller's DataFrame is computed as a local sequence. Its persistence on the caller's table is not modelled.
- Matcher.MatchTwice: the external service is modelled as a fixed function of the sent name, so a second lookup is assumed to answer as the first did. A live service can answer differently between two calls (a failed status, then a success), and the lemma does not cover that.
- `CombinedStrategy.AppendFinalResults` returns the extended list rather than appending to the list it is given, so aliasing of that list is not modelled.
- `refine_results` with an empty dictionary raises `UnboundLocalError`. It is modelled as `None`; the combined strategy always passes one query, so this case never arises there.
- `dict_has_required_fields` returns Python truthy values; they are modelled as `bool`.
- The abstract base class and its plumbing are replaced by a closed `Strategy` datatype.
- Thread safety is not modelled: the engine runs sequentially.
