# RiskMapper core in Dafny

This project models the core of RiskMapper, a desktop tool that records assets and security findings and scores the findings with CVSS v3.1. There are four parts.

- **The CVSS v3.1 Base Score engine** (`cvss.py`). The modules are `Cvss`, `CvssScores` and `CvssEntry`.
  - Metric validation checks eight keys in the fixed order `AV, AC, PR, UI, S, C, I, A`, on values that are stripped and upper-cased first.
  - Scoring uses the Base Metrics Equations of section 7.1 of the CVSS v3.1 Specification Document, with the weights of section 7.4 of the CVSS v3.1 Specification Document. The Privileges Required weight depends on Scope.
  - Rounding uses the Roundup function of Appendix A of the CVSS v3.1 Specification Document, in the form the engine writes it: `ceil(x*10 - 1e-9)/10`.
  - Severity banding follows section 5 of the CVSS v3.1 Specification Document.
  - The vector string has the form `CVSS:3.1/AV:x/.../A:x`, as in section 6 of the CVSS v3.1 Specification Document.
  - Arithmetic is over exact `real`, and the epsilon is the exact constant 1/1000000000.
- **The in-memory store** (`storage.py`), module `Storage`. Class `Store` holds two insertion-ordered dictionaries, assets and findings. Each dictionary is a `map` from id to record, plus the sequence of its ids in insertion order. The methods add, delete, look up by name, filter by asset name and count per severity, and their contracts say what they do to that state.
- **Import row normalisation** (`parser.py`), module `Parser`.
  - Every decoded CSV row or JSON object becomes an item with exactly the ten required keys.
  - A blank asset or title gets its default.
  - Metric codes are stripped and upper-cased.
  - Non-list JSON is an error, and non-object elements are skipped.
  - When the CSV sniffer fails, the header decides the delimiter.
- **The comma-list helpers** `_join_csv` and `_split_csv` (`db.py`), module `Db`.

`Text` models the Python string operations the core relies on: `str.strip` with the full `str.isspace` set, `str.upper`, `str.split`, `str.join` and `str.count`. `Wrappers` holds `Option`, `Outcome` and `Result`.

The two entry points are modelled as the code behaves. `calculate_base_score` and `vector_string` first build the normalised dictionary with `metrics[k]`. So a missing key raises `KeyError` for the first missing key in `METRIC_FIELDS` order. This happens before `validate_metrics` runs, and even when an earlier key holds an invalid value. The model's error for this case is `KeyLookup(k)`. The validator's own `Missing metric` error is therefore reachable only by calling `validate_metrics` directly.

## Model

| member | source | states |
|---|---|---|
| Cvss.AllowedSorted | cvss.py:14-23 | the codes listed in the invalid-value message: the same set as `ALLOWED[k]`, single letters, in ascending order |
| Cvss.ParseAv | cvss.py:15 | a code parses to an attack vector exactly when it is legal for AV, and the vector's code is the input code |
| Cvss.ParseAc | cvss.py:16 | a code parses exactly when it is legal for AC; parse then print gives the code back |
| Cvss.ParsePr | cvss.py:17 | a code parses exactly when it is legal for PR; parse then print gives the code back |
| Cvss.ParseUi | cvss.py:18 | a code parses exactly when it is legal for UI; parse then print gives the code back |
| Cvss.ParseScope | cvss.py:19 | a code parses exactly when it is legal for S; parse then print gives the code back |
| Cvss.ParseCia | cvss.py:20-22 | a code parses exactly when it is legal for C, I and A; parse then print gives the code back |
| Cvss.AvWeight | cvss.py:5 | every attack vector weight lies in [0.2, 0.85] |
| Cvss.AcWeight | cvss.py:6 | every attack complexity weight lies in [0.44, 0.77] |
| Cvss.UiWeight | cvss.py:7 | every user interaction weight lies in [0.62, 0.85] |
| Cvss.CiaWeight | cvss.py:8 | every impact weight lies in [0, 0.56], and it is 0 exactly for N |
| Cvss.PrWeight | cvss.py:9-10 | the Scope-selected privileges weight lies in [0.27, 0.85] under both tables |
| Cvss.PrChangedNotLower | cvss.py:9-10 | a Changed scope never gives a lower privileges weight than Unchanged, and a strictly higher one for L and H |
| Cvss.Ceil | cvss.py:33 | `math.ceil`: the least integer not below its argument |
| Cvss.Max | cvss.py:86 | `max`: the result is one of the two arguments and is not below either |
| Cvss.Min | cvss.py:81-83 | `min`: the result is one of the two arguments and is not above either |
| Cvss.RoundUp1Decimal | cvss.py:32-33 | the result is a multiple of 0.1 and lies in [x - 1e-10, x - 1e-10 + 0.1) |
| Cvss.Severity | cvss.py:35-44 | the result is one of the five names, and it is "None" exactly when the score is 0 |
| Cvss.ValidateKeys | cvss.py:46-52 | the check passes exactly when every key is present with a legal normalised value; otherwise it reports the error of the first failing key |
| Cvss.ValidateMetrics | cvss.py:46-52 | passes exactly on valid mappings; on failure, the error belongs to the first failing key in `METRIC_FIELDS` order, and is "missing" or "invalid" with the normalised value and the sorted codes |
| Cvss.IsValidOverFields | cvss.py:46-52 | a mapping is valid exactly when every key of `METRIC_FIELDS` is present with a legal normalised value |
| Cvss.FirstMissing | cvss.py:55 | none exactly when every key is present; otherwise the first absent key, with every earlier key present |
| Cvss.NormalizeMetrics | cvss.py:55 | fails with `KeyError` on the first missing key; otherwise the keys are exactly `METRIC_FIELDS`, each with its stripped, upper-cased value |
| Cvss.ParseMetricSet | cvss.py:58-67 | on a valid mapping, every field of the metric set prints as the normalised code of its key |
| Cvss.Segments | cvss.py:101-103 | one `K:V` segment per key, in key order |
| CvssScores.RoundUpOfTenth | cvss.py:32-33 | an exact tenth rounds to itself |
| CvssScores.TenthIsScaledInteger | cvss.py:32-33 | a tenth is k/10 for an integer k |
| CvssScores.RoundUpIdempotent | cvss.py:32-33 | rounding twice is rounding once |
| CvssScores.RoundUpMonotone | cvss.py:32-33 | rounding never reverses order |
| CvssScores.RoundUpIsLeast | cvss.py:32-33 | the result is the least tenth not below x - 1e-10 |
| CvssScores.RoundUpExamples | cvss.py:32-33 | 4.02 → 4.1, 4.0 → 4.0, 0.0 → 0.0 and 4.000000001 → 4.1 |
| CvssScores.SeverityOfTenths | cvss.py:35-44 | on tenths, 0 → None, 0.1–3.9 → Low, 4.0–6.9 → Medium, 7.0–8.9 → High, above → Critical |
| CvssScores.SeverityBetweenBands | cvss.py:35-44 | the values 3.95 and 6.95, which are not tenths, fall through to Critical |
| CvssScores.ExploitabilityRawRange | cvss.py:69 | `ExploitabilityRaw`, the product 8.22·AV·AC·PR·UI, lies in [0.12, 3.8871] |
| CvssScores.BaseScoreBounds | cvss.py:69-94 | `BaseScore`: score in [0, 10], impact ≥ 0, exploitability in (0, 3.9], all tenths, and severity equals `severity(score)` |
| CvssScores.IscBaseRange | cvss.py:70 | `IscBase` is 0 when C, I and A are all N; otherwise it lies in [0.22, 0.914816] |
| CvssScores.PowShrinks | cvss.py:75 | `Pow(x, n)` of a value in [-1, 1] is no larger in magnitude than the value |
| CvssScores.ImpactPositiveIff | cvss.py:72-77 | `ImpactRaw` is positive exactly when some of C, I, A is not N, under either scope |
| CvssScores.ScoreZeroIffNoImpact | cvss.py:77-94 | `ScoreRaw`: impact ≤ 0 gives score 0.0 and severity "None"; score 0 and "None" occur exactly when C, I and A are all N |
| CvssScores.RoundedExploitability | cvss.py:69-87 | rounding keeps the order of raw exploitability values |
| CvssScores.ExploitabilityMonotoneAv | cvss.py:58-69 | exploitability, both raw and rounded, never decreases along AV P→L→A→N |
| CvssScores.ExploitabilityMonotoneAc | cvss.py:58-69 | exploitability never decreases along AC H→L |
| CvssScores.ExploitabilityMonotonePr | cvss.py:63-69 | exploitability never decreases along PR H→L→N, under the scope's table |
| CvssScores.ExploitabilityMonotoneUi | cvss.py:58-69 | exploitability never decreases along UI R→N |
| CvssScores.WorkedExampleCritical | cvss.py:69-94 | AV:N/AC:L/PR:N/UI:N/S:U/C:H/I:H/A:H scores 9.8, Critical, impact 5.9, exploitability 3.9 |
| CvssScores.WorkedExampleNone | cvss.py:77-94 | a metric set with no impact scores 0.0, "None" |
| CvssEntry.NormOfNorm | cvss.py:50-55 | normalising an already normalised value changes nothing |
| CvssEntry.ValidHasAllKeys | cvss.py:55 | a valid mapping has every key, so building the normalised dictionary raises no `KeyError` |
| CvssEntry.ValidateKeysOnNormalized | cvss.py:55-56 | validating the normalised dictionary gives the same verdict and error as validating the caller's mapping |
| CvssEntry.NormalizedAgrees | cvss.py:55-67 | the normalised dictionary validates and parses exactly like the caller's mapping |
| CvssEntry.NormalizedEntries | cvss.py:55 | each key of the normalised dictionary holds the stripped, upper-cased value of the caller's key, and normalising it again changes nothing |
| CvssEntry.AgreeingParse | cvss.py:58-67 | a mapping whose values normalise like those of a valid mapping is valid and parses to the same metric set |
| CvssEntry.CalculateOutcome | cvss.py:54-94 | `CalculateBaseScore` succeeds exactly on valid mappings; a missing key gives `KeyError` for the first missing key; with every key present it gives the validator's error; otherwise it returns the score of the parsed metric set |
| CvssEntry.VectorOutcome | cvss.py:97-104 | `VectorString` succeeds exactly on valid mappings, and otherwise fails with the same error as `CalculateBaseScore` |
| CvssEntry.NormPaddedLower | cvss.py:50 | " n " normalises to "N" |
| CvssEntry.NormLowerZ | cvss.py:50 | "z" normalises to "Z" |
| CvssEntry.PaddedNormalisesToCritical | cvss.py:55 | a padded, lower-case AV value counts as the upper-case code |
| CvssEntry.CriticalParses | cvss.py:58-67 | a mapping that normalises to N/L/N/N/U/H/H/H is valid and parses to Network, Low, None, None, Unchanged, High, High, High |
| CvssEntry.CriticalExampleScore | cvss.py:54-94 | any mapping that normalises to N/L/N/N/U/H/H/H scores 9.8, Critical, through the raw entry point |
| CvssEntry.RejectsUnknownCode | cvss.py:50-52 | AV "z" is rejected as "Z", with the legal codes A, L, N, P |
| CvssEntry.RejectsNoneValue | cvss.py:50-52 | a `None` value is rejected and reported as "" |
| CvssEntry.RejectsMissingKey | cvss.py:46-52 | for every mapping where AV, AC and PR are legal and UI is absent, the validator reports UI as missing |
| CvssEntry.MissingKeyBeforeInvalidValue | cvss.py:54-56 | with AV invalid and AC absent, `calculate_base_score` raises `KeyError('AC')` rather than the AV error |
| CvssEntry.CodeHasNoSeparator | cvss.py:14-23 | a legal code is one letter, so it holds neither `/` nor `:` |
| CvssEntry.SegmentSplits | cvss.py:103 | a `K:V` segment splits on `:` back into K and V |
| CvssEntry.SegmentsParse | cvss.py:101-103 | the segments parse back to the dictionary of normalised codes |
| CvssEntry.ValidCodesClean | cvss.py:46-52 | in a valid mapping, no normalised value holds a separator |
| CvssEntry.NormalizedSegments | cvss.py:99-103 | segments read from the normalised dictionary equal those of the caller's mapping |
| CvssEntry.AgreeingSegments | cvss.py:101-103 | two mappings whose values normalise alike on the keys give the same segments and the same code dictionary |
| CvssEntry.VectorValue | cvss.py:97-104 | the vector string of a valid mapping is the prefix and the eight segments joined with `/` |
| CvssEntry.VectorSplitsIntoParts | cvss.py:101-104 | splitting the vector string on `/` gives `CVSS:3.1` and the eight segments |
| CvssEntry.JoinedSplits | cvss.py:104 | joining slash-free parts with `/` and splitting again gives the parts back |
| CvssEntry.ParsePrefixed | cvss.py:101-104 | a string that splits into the prefix and eight segments parses as those segments |
| CvssEntry.VectorRoundTrip | cvss.py:97-104 | for every valid mapping, parsing the vector string back on `/` and `:` gives exactly the normalised metric map |
| Text.StripIsStripped | cvss.py:50 | `Strip` leaves no surrounding whitespace |
| Text.StripPiece | cvss.py:50 | what `Strip` keeps is the stretch of the input between its leading and trailing whitespace, so it adds no character |
| Text.StripOfStripped | parser.py:7-8 | stripping a string without surrounding whitespace returns it unchanged |
| Text.NormalizeIsStripped | cvss.py:50 | strip-then-upper leaves no surrounding whitespace |
| Text.UpperKeepsStripped | cvss.py:50 | upper-casing keeps a stripped string stripped |
| Text.StripEmptyIffBlank | db.py:52-55 | `Strip` gives "" exactly on all-whitespace strings |
| Text.NormalizeIdempotent | cvss.py:50 | `Normalize` (strip, then upper-case) applied twice is applied once |
| Text.UpperIdempotent | parser.py:39-40 | `Upper` applied twice is `Upper` applied once |
| Text.UpperAt | parser.py:39-40 | `Upper` maps each character on its own: position i of the result is the upper case of position i of the input |
| Text.Split | db.py:56 | `split` always gives at least one piece, and no piece holds the separator |
| Text.JoinSplit | db.py:56 | `Join` of the pieces of a `Split` gives the string back |
| Text.SplitJoin | db.py:49-56 | `Split` of a `Join` of separator-free parts gives the parts back |
| Text.SplitAfterPiece | db.py:56 | splitting a separator-free piece, the separator and a rest gives the piece followed by the split of the rest |
| Text.Count | parser.py:27 | the count is the character's multiplicity in the string; it is positive exactly when the character occurs |
| Storage.ElementsMembers | storage.py:23-24 | the set of listed keys holds exactly the members of the key order |
| Storage.NoDuplicatesDistinct | storage.py:23-24 | in a dict's key order, any two positions hold different keys |
| Storage.InOrder | storage.py:37 | `values()` lists one entry per key |
| Storage.InOrderAt | storage.py:37 | the i-th entry of `values()` is the entry stored under the i-th key |
| Storage.InOrderUpdateOther | storage.py:32 | storing under a key that is not listed leaves the values of the listed keys as they were |
| Storage.InOrderAppend | storage.py:31-33 | inserting a fresh key appends its entry to `values()` and leaves earlier ones in place |
| Storage.AppendWellOrdered | storage.py:31-33 | after inserting a fresh key each key is still listed once, and exactly the stored keys are listed |
| Storage.Without | storage.py:42-44 | deleting a key drops it and keeps every other key |
| Storage.WithoutSingle | storage.py:42-44 | deleting from a one-key order removes that key when it is the deleted one and keeps it otherwise |
| Storage.WithoutConcat | storage.py:42-44 | deletion distributes over concatenation, so the remaining keys keep their insertion order |
| Storage.WithoutSnoc | storage.py:42-44 | deleting from an order with one more key at the end leaves what deleting from the shorter order leaves, followed by that key unless it is the deleted one |
| Storage.WithoutAbsent | storage.py:42-44 | deleting an absent key is a no-op |
| Storage.WithoutNoDuplicates | storage.py:42-44 | deleting a key keeps the remaining keys listed once each |
| Storage.WithoutIdempotent | storage.py:42-44 | deleting twice is deleting once |
| Storage.WithoutWellOrdered | storage.py:42-44 | after a deletion each remaining key is listed once, and exactly the remaining keys are listed |
| Storage.NewFinding | storage.py:47-58 | asset name and title are stripped and non-blank, defaulting to "Unassigned" and "Untitled Finding"; metrics, score and severity are kept as given |
| Storage.FirstNamed | storage.py:35-40 | none exactly when no asset has the name; otherwise an asset with that name, and none earlier has it |
| Storage.FirstNamedAt | storage.py:35-40 | the first asset bearing the name is the one returned |
| Storage.ForAssetMembers | storage.py:65-66 | `ForAsset`: a finding is in the filtered list exactly when it is in the input and its asset name equals the argument |
| Storage.ForAssetConcat | storage.py:65-66 | `ForAsset` distributes over concatenation, so it keeps insertion order |
| Storage.Bump | storage.py:71 | the bumped key's count grows by one, other counts stay unchanged, the total grows by one, existing keys keep their places, and a new key is appended at the end with count 1 |
| Storage.BumpDistinct | storage.py:71 | bumping keeps the keys of the counts pairwise distinct |
| Storage.CountsTotal | storage.py:68-72 | the counts add up to the number of findings |
| Storage.CountsGet | storage.py:68-72 | each key's count is the number of findings with that severity |
| Storage.CountsKeys | storage.py:68-72 | the five names come first, in their fixed order; the keys are those five plus every severity that occurs, each once |
| Storage.CountsFacts | storage.py:68-72 | `CountsOf`: the counts add up to the number of findings, each key counts the findings with that severity, the five names are keys, and no key appears twice |
| Storage.InitialKeys | storage.py:69 | the initial dictionary has exactly the five severity names |
| Storage.Store.constructor | storage.py:22-24 | both dictionaries start empty |
| Storage.Store.AddAsset | storage.py:30-33 | exactly one entry is added under the fresh id: the name is stripped, tags and services are kept, it is appended to `values()`, and findings are untouched |
| Storage.Store.GetAssetByName | storage.py:35-40 | returns the first asset in insertion order whose name equals the stripped query, or none when no asset has that name |
| Storage.Store.DeleteAsset | storage.py:42-44 | removes the key when present and is a no-op otherwise; findings are untouched |
| Storage.Store.AddFinding | storage.py:47-58 | stores the finding `add_finding` builds under the fresh id and appends it to `values()`; assets are untouched |
| Storage.Store.DeleteFinding | storage.py:60-62 | removes the key when present and is a no-op otherwise; assets are untouched |
| Storage.Store.FindingsForAssetName | storage.py:65-66 | exactly the findings whose asset name equals the argument, untrimmed, in insertion order |
| Storage.Store.SeverityCounts | storage.py:68-72 | the counts of the loop; they add up to the number of findings, each equals the number with that severity, the five names are always keys, and no key appears twice |
| Parser.Clean | parser.py:7-8 | the result is the stripped string, so it carries no surrounding whitespace; `None` gives "", and an already stripped string is returned unchanged |
| Parser.MetricKeysAreFields | parser.py:5 | the required keys are asset, title and the validator's eight metric keys |
| Parser.ItemShape | parser.py:33-40 | `ItemOf`: an item has exactly the ten required keys; asset and title are the stripped cells, or "Unassigned" and "Untitled Finding" when those are blank; each metric value is the validator's normalisation of the cell |
| Parser.ItemOfCharacterised | parser.py:33-40 | any dictionary with exactly the required keys, each holding its `FieldValue`, is the row's item |
| Parser.ItemDefaults | parser.py:34-37 | for every row, the item's asset and title are non-blank and stripped: the stripped cell when that is not blank, otherwise "Unassigned" or "Untitled Finding" |
| Parser.ItemMetric | parser.py:33-40 | each metric value of the item is the validator's normalisation of the cell, so it is stripped and already upper-case |
| Parser.MissingCellIsBlank | parser.py:33 | a metric key missing from the source row is present in the item as "" |
| Parser.CleanRequired | parser.py:33 | the comprehension yields each required key with the cleaned cell |
| Parser.ApplyDefaults | parser.py:34-37 | blank asset and title get their defaults; other keys are unchanged |
| Parser.UpperCodes | parser.py:39-40 | metric keys are upper-cased; other keys are unchanged |
| Parser.NormalizeRow | parser.py:33-40 | the loop body yields the item the row normalises to |
| Parser.ItemsOf | parser.py:32-41 | one item per row, in row order |
| Parser.NormalizeRows | parser.py:30-42 | the loop over the reader yields the items of its rows, in order |
| Parser.FallbackDelimiter | parser.py:26-28 | the fallback delimiter is always `;` or `,` |
| Parser.FallbackDelimiterIff | parser.py:26-28 | `;` exactly when the header has a `;` and at least as many `;` as `,` |
| Parser.Delimiter | parser.py:20-28 | the chosen delimiter is never empty; it is the sniffed one when that is non-empty, "," when the sniffer gives an empty one, and the header rule when the sniffer fails |
| Parser.SampleLines | parser.py:21 | `Sample` joins the first five lines (all of them when fewer) so that splitting it on newlines gives exactly those lines back |
| Parser.ParseCsvText | parser.py:10-42 | no lines gives []; otherwise the items of the rows the reader produces with the chosen delimiter |
| Parser.ObjectRows | parser.py:53-55 | a row is kept exactly when an object with it occurs in the list |
| Parser.ObjectRowsConcat | parser.py:53-55 | skipping distributes over concatenation, so object order is preserved |
| Parser.ObjectRowsAllObjects | parser.py:53-63 | a list of objects yields one row per element, in order |
| Parser.ParseJsonText | parser.py:44-64 | fails with the shape error exactly when the value is not a list; otherwise one item per object element, in order |
| Db.CleanItems | db.py:50 | every kept item is non-blank and stripped |
| Db.CleanItemsSingle | db.py:50 | one item is kept, stripped, exactly when its stripped form is not blank |
| Db.CleanItemsKeeps | db.py:50 | an item whose stripped form is not blank is kept, stripped, in its place between what the items before and after it leave |
| Db.CleanItemsOfClean | db.py:56 | cleaning a clean list changes nothing |
| Db.CleanItemsConcat | db.py:50 | cleaning distributes over concatenation, so order is kept |
| Db.CleanItemsFrom | db.py:50 | every kept item is the stripped form of some input item |
| Db.CleanItemsNoComma | db.py:56 | cleaning comma-free items yields comma-free items |
| Db.JoinCsv | db.py:49-50 | an empty or all-blank list joins to "" |
| Db.SplitCsv | db.py:52-56 | None, empty and blank give []; otherwise the cleaned comma pieces of the stripped string; every element is non-blank, stripped and comma-free |
| Db.SplitCsvExample | db.py:52-56 | "a, b" splits into ["a", "b"] |
| Db.SplitBlank | db.py:52-55 | `None` and all-whitespace strings split to [] |
| Db.JoinedIsStripped | db.py:49-50 | joining non-blank stripped items gives a stripped string |
| Db.JoinedSplitsBack | db.py:49-56 | a clean, comma-free, non-empty list survives a join followed by a split |
| Db.JoinSplitRoundTrip | db.py:49-56 | when no item holds a comma, split after join gives the stripped, non-blank items in order |
| Db.SplitJoinSplit | db.py:49-56 | split, then join, then split again is the same as a single split |

## Left out

- `main.py` (the UI, its event handlers, file reading and the import loop) and `ui_components.py` (presentation) are UI glue outside the modelled core and are not part of this model. Three pieces of them do have behaviour of their own: `split_csv_field` (main.py:19-20) strips, splits on commas and drops blank pieces, as `_split_csv` does but without stripping the whole string first; `pill` (ui_components.py:3-26) labels a score and severity and picks its colours from the stripped, lower-cased severity; and the dashboard (main.py:59-62) lists the last ten findings, newest first.
- The SQLite functions of `db.py` are database I/O and are not part of this model. Only `_join_csv` and `_split_csv` are modelled.
- Library calls are inputs to the model.
  - `str.splitlines`: the CSV text arrives as its lines.
  - `csv.Sniffer().sniff`: a function from the sample to a delimiter, or `None` when it raises.
  - `csv.DictReader`: a function from lines and delimiter to rows.
  - `json.loads`: the decoded value. Decode errors are not modelled.
  - Inside an object, each JSON field is given by its `str()` form. The model does not derive that form.
- `uuid.uuid4()` is randomness. Ids are supplied by the caller, with the precondition that they are fresh.
- Storage.Store: records are values here. In the source, `add_asset` stores the caller's own `tags` and `services` lists, and `add_finding` stores the caller's own `metrics` dictionary. Later mutation through those aliases is not modelled.
- Cvss.RoundUp1Decimal: the model computes over exact reals, not IEEE-754 doubles. Bit-for-bit float results are not claimed. The epsilon is kept as the exact constant 1e-9.
- Text.Upper: upper-cases ASCII letters only. No character outside ASCII upper-cases to a legal metric code, so validation verdicts are unaffected. A non-ASCII value is reported in the model's error text without upper-casing.
- Parser.Clean: `str()` of a non-string cell is not modelled; cells arrive as their string form.
- `round_up_1_decimal(4.000000001)` is 4.1, because ceil(40.00000001 - 1e-9) = 41; the epsilon absorbs an excess of at most 1e-10 (`CvssScores.RoundUpExamples`).
- The concrete vector string of the worked example (`CVSS:3.1/AV:N/.../A:H`) is not stated as a literal. Its shape and round trip are proved for every valid mapping instead (`CvssEntry.VectorSplitsIntoParts`, `CvssEntry.VectorRoundTrip`).
