# Region reconciliation core of the second-hand iPhone dashboard

`dashboard.py` is a Streamlit page over a SQLite database of second-hand iPhone listings.
This project models in Dafny the part of it that turns query rows into the figures the
page shows, and proves what those figures promise:

- **Keys** (`keys.dfy`): `normalize_key`, plus the Python text handling it relies on:
  `str()` of a cell (a missing value read from the mapping CSV renders as `"nan"`) and `str.strip()` with Python's
  whitespace set. The Unicode NFC normalisation is a function parameter `nfc`.
- **Query** (`query.dfy`): `build_dynamic_query_parts`. It appends to a WHERE-clause string
  with `?` placeholders and to a parameter list, driven by the platform selector ("전체" means every
  platform), the model selector (six known labels) and the date range.
- **Mapping** (`mapping.dfy`): `load_mapping_dict`, the neighbourhood-to-district lookup
  table. It is built by a loop over the records of the mapping file, and the file itself is a value.
- **Grouping** (`grouping.dfy`): `groupby().size()` sorted by count descending, and
  `value_counts()`. Both become a count table: a sequence of (name, count) rows.
- **Regions** (`regions.dfy`): the district backfill `fill_missing_gu` and the per-district table of
  `fetch_regional_data`. Also the diagnostics list of `fetch_unmapped_details` with its
  `is_unmapped` helper, and how that list relates to the sentinel district "지역 미기재".
- **Display** (`display.dfy`): three things the page derives from the district table:
  - the table shown under the map, with its "NULL 값 존재" reconciliation row;
  - the "most frequent region" figure;
  - the outline colour bands of the map circles.

The database query results are an input: one `(sigungu, dong)` pair of cells per post. The
total post count that the KPI query returns is an input too.

## Model

| member | source | states |
|---|---|---|
| Keys.Str | dashboard.py:171 | `str()` of a text cell of the mapping CSV is the text; of a missing value (NaN) it is "nan" |
| Keys.IsSpace | dashboard.py:168 | the characters Python's `str.isspace()` accepts, which `str.strip()` removes |
| Keys.TrimStart | dashboard.py:168 | `str.lstrip()`: drops leading whitespace, never lengthening the string |
| Keys.TrimEnd | dashboard.py:168 | `str.rstrip()`: drops trailing whitespace, never lengthening the string |
| Keys.Strip | dashboard.py:168 | `str.strip()` as used at 168, 171, 197 and 234: leading and trailing whitespace removed, never lengthening the string |
| Keys.TrimStartIsSuffix | dashboard.py:168 | stripping the front leaves the suffix after a whitespace-only prefix, starting at a non-space |
| Keys.TrimEndIsPrefix | dashboard.py:168 | stripping the end leaves the prefix before a whitespace-only suffix, ending at a non-space |
| Keys.StripIsSlice | dashboard.py:171 | `str.strip()` yields the slice of the input between a whitespace-only prefix and suffix, bounded by non-spaces |
| Keys.StripEmptyIffBlank | dashboard.py:197 | a string strips to "" exactly when it is whitespace only |
| Keys.IsKeyChar | dashboard.py:102 | the character class `[가-힣a-zA-Z0-9]`: a Hangul syllable U+AC00..U+D7A3, an ASCII letter or digit |
| Keys.KeepKeyChars | dashboard.py:102 | the filter's result is no longer than its input and has only Hangul syllables, ASCII letters and digits |
| Keys.KeepKeyCharsIsSubsequence | dashboard.py:102 | the filter's result is a subsequence of its input |
| Keys.KeepKeyCharsCounts | dashboard.py:102 | every key character keeps its number of occurrences, and every other character is gone |
| Keys.KeepKeyCharsFixed | dashboard.py:102 | the filter leaves a string unchanged exactly when it already has only key characters |
| Keys.KeepKeyCharsIdempotent | dashboard.py:102 | filtering twice equals filtering once |
| Keys.KeepKeyCharsOfBlank | dashboard.py:102 | a whitespace-only string filters to "" |
| Keys.NormalizeKey | dashboard.py:98-103 | None exactly for a missing or empty cell; otherwise only key characters, and a subsequence of the NFC form of the text |
| Keys.LookupKey | dashboard.py:170-171 | the key as callers test it: non-empty exactly when normalize_key gives that non-empty string; always key characters only |
| Keys.NormalizeKeyIdempotent | dashboard.py:98-103 | when NFC fixes key strings, normalising a key again gives the same key |
| Keys.LookupKeyOfBlank | dashboard.py:98-103 | when NFC keeps blank text blank, a missing, empty or whitespace-only cell has no usable key |
| Query.Count | dashboard.py:106-136 | the count of a character is at most the length, and it is zero exactly when the character is absent |
| Query.CountAppend | dashboard.py:106-136 | counts add up over a concatenation |
| Query.BasePlaceholders | dashboard.py:108 | the date-range fragment has two placeholders |
| Query.PlatformPlaceholders | dashboard.py:112 | the platform fragment has one placeholder |
| Query.ModelPlaceholders | dashboard.py:116 | the LIKE fragment has two placeholders |
| Query.ExcludeProPlaceholders | dashboard.py:121 | the Pro exclusion has no placeholder |
| Query.PlatformMarker | dashboard.py:108-121 | `=` occurs in the platform fragment and in no other fragment |
| Query.ModelMarker | dashboard.py:108-121 | `(` occurs in the LIKE fragment and in no other fragment |
| Query.ExcludeProMarker | dashboard.py:108-121 | `'` occurs in the Pro exclusion and in no other fragment |
| Query.AssembledPresence | dashboard.py:106-136 | in a base plus three optional fragments with distinct marker characters, each fragment occurs exactly when its part is present |
| Query.KoreanName | dashboard.py:115-135 | the six labels the elif chain knows, each with the Korean spelling of its second LIKE pattern; none for any other label |
| Query.Known16Pro | dashboard.py:115-117 | "iPhone 16 Pro": the LIKE fragment, no exclusion, the Latin and Korean patterns |
| Query.Known16 | dashboard.py:118-121 | "iPhone 16": the LIKE fragment, the Pro exclusion, the Latin and Korean patterns |
| Query.Known15Pro | dashboard.py:122-124 | "iPhone 15 Pro": the LIKE fragment, no exclusion, the Latin and Korean patterns |
| Query.Known15 | dashboard.py:125-128 | "iPhone 15": the LIKE fragment, the Pro exclusion, the Latin and Korean patterns |
| Query.Known14Pro | dashboard.py:129-131 | "iPhone 14 Pro": the LIKE fragment, no exclusion, the Latin and Korean patterns |
| Query.Known14 | dashboard.py:132-135 | "iPhone 14": the LIKE fragment, the Pro exclusion, the Latin and Korean patterns |
| Query.UnknownModel | dashboard.py:115-136 | any other label adds no model fragment, no exclusion and no patterns |
| Query.WhereClause | dashboard.py:108-135 | the clause the builder returns: the date range, then the platform part, then the LIKE part and the Pro exclusion |
| Query.QueryParams | dashboard.py:109-135 | the parameters the builder returns: the two dates, the platform when filtered, the two patterns of a known label |
| Query.ModelFilter | dashboard.py:115-135 | the model branch appends the LIKE fragment and patterns for a known label, plus the exclusion for a base-tier label, and nothing otherwise |
| Query.BuildQueryParts | dashboard.py:106-136 | the clause and parameters are the base, then the platform part, then the model part, in that order |
| Query.PlaceholdersMatchParams | dashboard.py:106-136 | the clause has exactly one `?` per parameter: 2 for the dates, plus 1 for a platform other than "전체", plus 2 for a known model |
| Query.ParamsLayout | dashboard.py:109-135 | the parameters start with the two dates, then the platform if filtered, and end with the Latin then the Korean pattern of a known model |
| Query.ClauseStartsWithDates | dashboard.py:108 | the clause always starts with the date-range fragment |
| Query.ClauseFragments | dashboard.py:111-135 | the platform fragment occurs iff platform ≠ "전체"; the LIKE fragment iff the model is known; the Pro exclusion iff the model is iPhone 16, 15 or 14 |
| Query.UnknownModelClause | dashboard.py:115-136 | an unknown model label adds nothing after the platform part |
| Mapping.ColumnIndex | dashboard.py:168-171 | the column found is the first with that name, and there is none only when no column has the name |
| Mapping.StripAll | dashboard.py:168 | `map_df.columns.str.strip()`: every header name stripped |
| Mapping.CellAt | dashboard.py:170-171 | `row[column]` of a record; a short record reads as a missing value |
| Mapping.EntryOf | dashboard.py:170-171 | what one iteration takes from a record: the key of its `dong` and `str(sigungu).strip()` |
| Mapping.EntriesOf | dashboard.py:169-171 | one entry per record: the key of its `dong` cell and its stripped `sigungu` |
| Mapping.FoldStep | dashboard.py:169-171 | one more record sets its key to its district when the key is non-empty, and changes nothing otherwise |
| Mapping.Fold | dashboard.py:169-171 | the table after all records in order: a non-empty key sets its district, overwriting an earlier one; an empty key is skipped |
| Mapping.MappingOf | dashboard.py:161-173 | a missing or unreadable file, or one without a `dong` or `sigungu` column, gives the empty table |
| Mapping.LoadMapping | dashboard.py:161-173 | the loop over the records builds exactly the fold of their entries |
| Mapping.FoldKeys | dashboard.py:169-171 | a key is in the table exactly when it is non-empty and some entry has it |
| Mapping.FoldLastWins | dashboard.py:169-171 | a key's value is the district of the last entry with that key |
| Mapping.MappingKeysFromRecords | dashboard.py:161-173 | every key of a loaded table is the normalised `dong` of some record, so it has only key characters |
| Mapping.MappingLastWins | dashboard.py:161-173 | the district for a record's key is the stripped `sigungu` of the last record with that key |
| Grouping.AppendLaws | dashboard.py:205 | totals, row counts and per-name counts add up over a concatenation |
| Grouping.SingletonLaws | dashboard.py:205 | totals, row counts and per-name counts of a one-row table |
| Grouping.RemoveOne | dashboard.py:207 | removing the same row from two equal multisets keeps them equal |
| Grouping.PermutationLaws | dashboard.py:207 | reordering rows changes neither the total, nor the row count per name, nor the count per name |
| Grouping.BumpLaws | dashboard.py:205 | counting one more occurrence of a name adds one to the total and to that name's count, and adds a row only for a new name |
| Grouping.CountBy | dashboard.py:205 | `groupby(...).size()`: one row per distinct value, counting its occurrences (laws in CountByLaws) |
| Grouping.CountByLaws | dashboard.py:205 | the count table has total \|s\|, one row per value of s and none for other names, and each row counts its value's occurrences |
| Grouping.CountByIsCountTable | dashboard.py:205 | the first-appearance counting is a count table of its input |
| Grouping.Insert | dashboard.py:207 | insertion adds exactly the one row |
| Grouping.InsertKeepsOrder | dashboard.py:207 | insertion into a table in non-increasing order keeps that order |
| Grouping.SortByCountDesc | dashboard.py:207 | the sort result is in non-increasing count order and is a permutation of its input |
| Grouping.PermutedCountTable | dashboard.py:207 | a permutation of a count table is a count table of the same values |
| Grouping.CountTable | dashboard.py:205-207 | group, count and sort: each value appears exactly once, counts sum to the number of values, rows are in non-increasing count order |
| Regions.FillMissingGu | dashboard.py:196-201 | a usable own district is returned unchanged; otherwise the table's district for the dong key, or "지역 미기재" when the key is empty or absent |
| Regions.HasDistrict | dashboard.py:197 | the own district is usable: a non-empty text whose stripped form is none of "None", "nan", "" |
| Regions.FinalDistricts | dashboard.py:203 | one final district per row, in row order |
| Regions.RegionalData | dashboard.py:194-207 | each final district appears exactly once; the counts sum to the number of rows; rows are in non-increasing count order |
| Regions.DongLabel | dashboard.py:233-234 | a missing or whitespace-only dong becomes "(지역 정보 없음)", and any other keeps its text |
| Regions.IsUnmapped | dashboard.py:236-240 | `is_unmapped`: the placeholder label, a label with no key, or a key the lookup table lacks |
| Regions.SqlBlank | dashboard.py:221 | the SQL filter `r.sigungu IS NULL OR r.sigungu = ''` |
| Regions.ListedAsWritten | dashboard.py:221-242 | a row the as-written list keeps: it passes the SQL filter and its label is unmapped |
| Regions.Listed | dashboard.py:197-242 | a row the intended list keeps: fill_missing_gu rejects its district and its label is unmapped |
| Regions.UnmappedLabelsAsWritten | dashboard.py:221-242 | the labels that pass the SQL filter and are unmapped: no more than the rows, and all unmapped; completeness is UnmappedLabelsAsWrittenComplete |
| Regions.UnmappedLabels | dashboard.py:233-242 | the labels of rows whose own district is rejected and which are unmapped: no more than the rows, and all unmapped; completeness is UnmappedLabelsComplete |
| Regions.UnmappedLabelsAsWrittenComplete | dashboard.py:221-249 | the as-written list holds each label exactly as many times as there are rows it keeps with that label |
| Regions.UnmappedLabelsComplete | dashboard.py:233-249 | the intended list holds each label exactly as many times as there are rows it keeps with that label |
| Regions.ListedRowAppears | dashboard.py:242 | every row the intended list keeps appears in it under its label |
| Regions.UnmappedDetailsAsWritten | dashboard.py:228-249 | value_counts of the as-written labels: a count table of them in non-increasing order |
| Regions.UnmappedDetails | dashboard.py:228-249 | value_counts of the intended labels: a count table of them in non-increasing order |
| Regions.BlankDongIsUnmapped | dashboard.py:233-240 | a missing or blank dong is labelled "(지역 정보 없음)" and counts as unmapped, and fill_missing_gu sends its row to the sentinel |
| Regions.SentinelIffUnmapped | dashboard.py:196-201 | for a row with a rejected own district, fill_missing_gu gives the sentinel iff is_unmapped holds for its label (when no district is the sentinel) |
| Regions.RowSentinelIffListed | dashboard.py:196-240 | a row goes to the sentinel iff its own district is rejected and its label is unmapped |
| Regions.FinalDistrictsStep | dashboard.py:203 | one more row adds one to the sentinel count exactly when it goes to the sentinel |
| Regions.UnmappedCountsSentinel | dashboard.py:196-249 | the intended diagnostics list has as many labels as there are rows under the sentinel |
| Regions.UnmappedDetailsMatchSentinel | dashboard.py:194-249 | the intended diagnostics table's total equals the district table's sentinel count |
| Regions.AsWrittenIsPartOfIntended | dashboard.py:221-242 | the as-written list is no longer than the intended one, and equal to it when every rejected district is NULL or '' |
| Regions.NoneDistrictRow | dashboard.py:196-221 | a post with own district "None" and no dong resolves to the sentinel but is not listed by the as-written query |
| Regions.AsWrittenMissesSentinelRow | dashboard.py:194-249 | for that post, the sentinel count is 1, the as-written diagnostics total is 0 and the intended total is 1 |
| Display.WithoutSentinel | dashboard.py:432 | dropping the sentinel rows removes exactly the sentinel count from the total |
| Display.WithoutSentinelRows | dashboard.py:432 | the rows kept are exactly the non-sentinel rows |
| Display.DisplayTable | dashboard.py:431-438 | nothing for an empty table; otherwise the non-sentinel rows plus a "NULL 값 존재" row for the shortfall when they sum below the total, so the shown counts then sum to the total |
| Display.ReconcileDisplay | dashboard.py:431-438 | the filter, sum and conditional append compute exactly that table |
| Display.DisplayReconcilesTotal | dashboard.py:431-438 | under the district table of the query's rows, the shown counts sum to the total, and the null row counts the sentinel posts plus the posts the region join dropped |
| Display.MostFrequentRegion | dashboard.py:383-385 | "-" with count 0 when no non-sentinel row exists; otherwise a non-sentinel row of the table |
| Display.WithoutSentinelHead | dashboard.py:383-385 | on a table in non-increasing order, the first non-sentinel row has the largest count among non-sentinel rows |
| Display.MostFrequentIsLargest | dashboard.py:383-385 | on the sorted table, the figure has the largest count among non-sentinel districts |
| Display.OutlineColor | dashboard.py:312-317 | the colour is one of green, gold and red |
| Display.OutlineColorMonotone | dashboard.py:312-317 | more posts never give a calmer colour; green exactly up to 5, red exactly above 15 |

`MappingOf`, `WhereClause`, `QueryParams`, `Patterns`, `Fold` and `CountBy` are the
specification functions of the methods and lemmas above; the functions and predicates in the
table without an `ensures` of their own are definitions, and the lemmas beside them state their
properties.

The source behaviour this model follows:

- **Usable own district.** A post's own district counts as usable under a three-part rule.
  - The cell is a non-empty string.
  - Its stripped form is none of "None", "nan" and "".
  - It is then returned unstripped, exactly as `fill_missing_gu` does.
- **The key test.** `normalize_key` can return the empty string as well as None. Callers test
  the result for truthiness (`if key:`, `if not clean_dong:`), so `LookupKey` folds both into "".
- **Loader exceptions.** In `load_mapping_dict`, a missing `dong` or `sigungu` column raises on the
  first record that needs it, and the exception handler then returns the still-empty table. The
  model returns the empty table for a missing column.

## Left out

- The Streamlit page, its CSS and widgets, and `@st.cache_data` memoisation: these are UI and framework concerns.
- The SQLite connection and the execution of the SQL text. The rows a query returns, and the total
  post count of the KPI query, are inputs.
- Reading the CSV file: the existence check, the utf-8-sig/cp949 fallback, and pandas' type
  inference. `MapFile` is the outcome as a value, with every cell read as text or missing. A numeric
  cell that pandas would read as a number, and duplicate header names, are not modelled.
- `unicodedata.normalize('NFC', …)`: a library call, so it is the parameter `nfc`. Its laws are
  stated as requirements where a lemma needs them (`FixesKeyStrings`, `KeepsBlank`).
- `str(start_date)` and `str(end_date)`: the dates enter already rendered as strings.
- Floating-point work: the average price, and the circle ratio and radius.
- PIL drawing, PNG encoding, the coordinate table and Plotly charts: rendering through foreign
  libraries. The display table appears on the page only when a map image was produced; the model
  computes the table regardless.
- Grouping.SortByCountDesc: pandas' `sort_values` uses an unstable sort, so the order among rows with the
  same count is unspecified. The model uses a stable insertion sort and promises only non-increasing
  order plus permutation.
- Grouping.CountBy: `groupby` lists districts in sorted order before the count sort, while the model
  lists them in first-appearance order. Only the multiset of rows matters once they are sorted by count.
- The caption text of the KPI cards and the column renaming of the result frames: presentation only.
- The other dashboard queries (platform counts and the price trend): these are SQL aggregates, not
  part of the region core.

## Findings

| source | as written | input that shows it | evidently intended | confidence | as-written member | corrected member |
|---|---|---|---|---|---|---|
| dashboard.py:221 | the diagnostics query keeps only posts whose `sigungu` is NULL or '' | a post with `sigungu` = "None" (or "nan", or whitespace) and no `dong` | the diagnostics list covers every post that `fill_missing_gu` (dashboard.py:197) rejects and sends to "지역 미기재", so its total matches the sentinel count | medium, not executed | Regions.AsWrittenMissesSentinelRow | Regions.UnmappedDetailsMatchSentinel |

`fill_missing_gu` treats bigger sets of `sigungu` values as blank than the diagnostics query does: the
texts "None" and "nan" and whitespace-only strings count as blank there as well. Such a post is counted
under "지역 미기재" in the district table but never appears in the list meant to explain that row.

- `Regions.UnmappedDetailsAsWritten` models the query as written.
- `Regions.UnmappedDetails` uses the blank test of `fill_missing_gu` instead.
- For the intended version, `Regions.UnmappedDetailsMatchSentinel` proves that the list's total equals the sentinel count. This holds when no lookup-table district is the sentinel and no post carries the sentinel as its own district.
