# MIDI validation: a verified model of the de-identification auditor

The MIDI validation script checks the output of a DICOM de-identification run against an answer key. The answer key lists per-tag checks for each original record: a tag must be retained, a text must be removed, a date must be shifted, a UID must be changed, and so on. This project models the auditor's deterministic core in Dafny and proves properties of that model.

The pipeline:

1. **Record flattener** (`file_indexer`). Each output file's data set is walked depth first into a flat dictionary.
   - Each key is a tag path: `<(GGGG,EEEE)>` at the top level, and `parent[<NNNN>]<label>` inside item NNNN of a sequence.
   - Private elements that have a creator are relabelled `(gggg,"CREATOR",ee)`.
   - Pixel, overlay and meta-version elements are stored as `<REMOVED>`.
   - Every other value is stripped and wrapped in angle brackets.
   - `index_files` writes one such dictionary per file, keyed 0..n-1, after the file's identity entries.
2. **Answer-key remapping** (`answer_preparer`). Each answer row's original study, series and instance UIDs are looked up, bracketed, in the old-to-new UID map. The results go into `new_study`, `new_series` and `new_instance`.
3. **Check engine** (`curation_validator`).
   - A scope rule picks the answer rows that apply to each file: by instance, series, or study/patient UID.
   - The rows' checks are dispatched to seven kinds, each with its own policy for absent and null values.
   - Every check logs exactly one row into an append-only dictionary keyed by a running counter.
   - `validate_text` compares two values in three stages: as numbers, as a literal substring, or as the fraction of the expected value's tokens found in the file value. Each comparison runs in retain or remove mode.
4. **Reports** (`reports_helper`).
   - `check_category` maps each result to a (category, subcategory) pair.
   - The discrepancy report keeps the results that did not pass and masks LUT data.
   - The action, category and scoring reports optionally keep the worst row per (action, tag, patient, study, series). They then count Blank, Fail and Pass per key and score Pass/Total.
5. **dciodvfy front end** (`dciodvfy_runner`). `check_file` parses the validator's stderr lines into keyed (type, tag, message) rows. `index_path` lists a directory walk per file or per directory.
6. **Driver** (`run_validation`). `check_config` validates the JSON configuration. `initialize_logging` maps the configured level name to a logging level.

Modules are `Wrappers` and `Text` (Python string operations: `strip`, `replace`, ASCII `lower` and `upper`, `isdigit`, `zfill`, `in`, `split`, hexadecimal rendering), plus one module per source file: `FileIndexer`, `AnswerPreparer`, `CurationValidator` with `TextMatcher`, `ReportsHelper`, `DciodvfyRunner` and `RunValidation`.

Each loop or in-place update in the source is a method with invariants. Each method is proved against a specification function, and the properties are proved as lemmas about those functions. The source's in-place objects are classes:

- `FileIndexer.TagDict` is the shared `tag_dict`;
- `CurationValidator.ErrorDict` is `error_dict`;
- `ReportsHelper.Frame` is the data frame that `sort_values` and `drop_duplicates` change in place.

Where the design description and the code disagree, the model follows the code:

- `tag_retained` passes when the tag is a column of the batch's file table, even when this file's cell is null. The file table's columns are the union of all files' keys, so this can happen. The description says "present and non-null".
- A check that raises is still logged by the code, with null verdict and score and with whatever file value was read before the raise. The description says the result is omitted.
- An answer row that matches no file yields no result: the code loops over files only. The description says such a row yields results without a file.

## Model

| member | source | states |
|---|---|---|
| FileIndexer.RawLabelForm | modules/file_indexer.py:76-93 | `str(tag.tag).strip().replace(', ', ',')` is always `(GGGG,EEEE)` |
| FileIndexer.StripTagString | modules/file_indexer.py:76 | stripping the tag string changes nothing |
| FileIndexer.ReplaceTagString | modules/file_indexer.py:76 | the replacement touches only the separator after the group |
| FileIndexer.PrivateLabelForm | modules/file_indexer.py:75-86 | a private element with a creator is labelled `(gggg,"CREATOR",ee)`: the group, the upper-cased creator, and the element's low byte |
| FileIndexer.PlainLabelForm | modules/file_indexer.py:87-93 | a private element without a creator, and every public element, keeps the raw label |
| FileIndexer.PrivateLabelIgnoresBlock | modules/file_indexer.py:78-86 | the same creator and offset in different private blocks give the same label |
| FileIndexer.PlainLabelsDistinct | modules/file_indexer.py:87-93 | elements that are not relabelled and have different tags get different labels |
| FileIndexer.CompactTagParts | modules/file_indexer.py:78-80 | the slices `[1:5]` and `[6:10]` of the label are the group and the element |
| FileIndexer.ValuePolicy | modules/file_indexer.py:67-126 | bulk elements are always `<REMOVED>`; a None value is `<>`; any other value is `<` + its stripped text + `>`, so a blank value is also `<>` |
| FileIndexer.ItemSegmentUniform | modules/file_indexer.py:97-100 | the count-0 branch gives the same `[<NNNN>]` segment as the general branch |
| FileIndexer.ItemPathsDistinct | modules/file_indexer.py:97-107 | paths below two different items of one sequence differ, whatever follows the segment |
| FileIndexer.FlattenFromFrame | modules/file_indexer.py:71-136 | flattening removes no key; every key it changes lies under the call's scope (`<` at the top, `parent[<NNNN>]` inside an item) |
| FileIndexer.VisitFrame | modules/file_indexer.py:104-136 | writing an element records its encoded value under its own path and changes nothing outside the scope |
| FileIndexer.WriteAtFrame | modules/file_indexer.py:117-136 | an SQ element's own entry survives the flattening of its items |
| FileIndexer.ItemsFrame | modules/file_indexer.py:132-136 | flattening a sequence's items changes only keys under `path[<` |
| FileIndexer.ItemKeysSeparated | modules/file_indexer.py:132-136 | keys written by two different items of one sequence are different strings |
| FileIndexer.FlattenPreservesOtherKeys | modules/file_indexer.py:142-167 | a top-level walk changes only keys beginning with `<`; every other key keeps its value |
| FileIndexer.ElementsRecorded | modules/file_indexer.py:71-126 | every element of a data set has an entry under its path |
| FileIndexer.TagDict.IndexFileElements | modules/file_indexer.py:63-138 | the in-place walk leaves the dictionary equal to the flattening of the data set into the old dictionary |
| FileIndexer.TagDict.WriteElement | modules/file_indexer.py:71-136 | one pass of the loop: record the element, then recurse into its items |
| FileIndexer.TagDict.IndexItems | modules/file_indexer.py:132-136 | each item is flattened one level deeper, with its ordinal and the SQ path as parent |
| FileIndexer.TagDict.constructor | modules/file_indexer.py:149 | the dictionary starts as the given entries |
| FileIndexer.IdentityPreserved | modules/file_indexer.py:149-167 | the nine identity entries survive the walk unchanged; every other key is a tag path |
| FileIndexer.IndexFiles | modules/file_indexer.py:142-171 | raises AttributeError, and yields no table, iff some file lacks one of the six identity attributes; otherwise one entry per listing row, keyed 0..n-1, where entry k is row k's identity fields flattened with its data set |
| AnswerPreparer.MapKey | modules/answer_preparer.py:79-87 | the lookup key is the UID in angle brackets, so it is never empty |
| AnswerPreparer.ConvertAll | modules/answer_preparer.py:69-91 | conversion keeps the number of rows |
| AnswerPreparer.Initialised | modules/answer_preparer.py:71-75 | the copy has every row, with the three new columns set to `''` |
| AnswerPreparer.ConvertedRows | modules/answer_preparer.py:71-89 | rows keep their order and original columns; each new column holds the mapped UID when the bracketed UID is a map key, and `''` otherwise |
| AnswerPreparer.ConvertSplits | modules/answer_preparer.py:77-89 | conversion is row-local: converting two parts and concatenating gives the converted whole |
| AnswerPreparer.ConvertChunks | modules/answer_preparer.py:29-46 | consecutive chunks, converted one by one and concatenated in chunk order, give the converted table |
| AnswerPreparer.ConvertIds | modules/answer_preparer.py:69-91 | the cell-by-cell loop yields exactly the converted table |
| AnswerPreparer.PrepareAnswerData | modules/answer_preparer.py:50-67 | returns the converted table |
| AnswerPreparer.GetPreparedData | modules/answer_preparer.py:42-48 | the sequential path returns the converted table |
| CurationValidator.TableColumns | modules/file_indexer.py:46 | every row of the batch's file table has the union of all files' keys as its columns |
| CurationValidator.FileTable | modules/file_indexer.py:46 | one file-table row per indexed file |
| CurationValidator.FileAnswerData | modules/curation_validator.py:87-95 | the selection is no longer than the answer table |
| CurationValidator.ScopeFilter | modules/curation_validator.py:87-95 | the selected rows are exactly the answer rows the scope rule admits |
| CurationValidator.ScopeLevels | modules/curation_validator.py:87-95 | with a scope column: Instance rows match on the instance UID, Series rows on the series UID, Study and Patient rows on the study UID, other scopes never; without one, only the instance UID counts |
| CurationValidator.OnlySevenKinds | modules/curation_validator.py:100-133 | a file logs one row per check of the seven kinds and none for any other action; each row carries one of the seven actions |
| CurationValidator.KindRows | modules/curation_validator.py:198-219 | a `validate_*` loop yields one row per selected check |
| CurationValidator.AbsentTag | modules/curation_validator.py:206-395 | a tag that is not a column: tag_retained, text_notnull and text_retained fail with 0; text_removed, date_shifted and uid_changed pass with 1; pixels_hidden records nothing |
| CurationValidator.PresenceChecks | modules/curation_validator.py:206-243 | tag_retained passes iff the tag is a column; text_notnull passes iff it is a column whose cell is not `<>`; score 1 on a pass and 0 otherwise |
| CurationValidator.MissingTextValue | modules/curation_validator.py:263-305 | an absent or null value fails text_retained with 0 and passes text_removed with 1 |
| CurationValidator.PresentTextValue | modules/curation_validator.py:263-299 | a present value goes to `validate_text`, retain or remove; text_removed first turns `<REMOVED>` into `<>` |
| CurationValidator.ChangePolicy | modules/curation_validator.py:326-373 | date_shifted and uid_changed judge alike; they fail iff the expected value without brackets, backslashes ignored, still occurs in the file value; an absent tag passes; a null expected value leaves no verdict |
| CurationValidator.OutcomeShape | modules/curation_validator.py:200-219 | a verdict is set iff a score is; every score is in [0, 1] |
| CurationValidator.ExtendFacts | modules/curation_validator.py:159-190 | writing rows at consecutive keys adds exactly those keys, puts row j at key i+j, and leaves every other entry as it was |
| CurationValidator.ExtendAppend | modules/curation_validator.py:103-133 | two runs of writes, one after the other, are one run of their concatenation |
| CurationValidator.Numbered | modules/curation_validator.py:79-80 | the returned dictionary has keys 0..n-1, key k holding the k-th row |
| CurationValidator.ErrorDict.constructor | modules/curation_validator.py:79 | the dictionary starts empty |
| CurationValidator.ErrorDict.LogError | modules/curation_validator.py:159-190 | writes one entry at `error_iter`, with the answer category wrapped in angle brackets and fields from the check and file rows, and returns `error_iter + 1`; other entries are untouched |
| CurationValidator.EvaluateCheck | modules/curation_validator.py:196-395 | each kind's body computes the specified outcome; a caught exception leaves the verdict null |
| CurationValidator.ValidateChanged | modules/curation_validator.py:326-344 | the shared date_shifted/uid_changed body computes the specified outcome |
| CurationValidator.CheckAndLog | modules/curation_validator.py:198-219 | one iteration logs exactly one entry, whatever the check did |
| CurationValidator.ValidateKind | modules/curation_validator.py:196-221 | a `validate_*` loop writes its rows at consecutive keys and advances the counter by the number of checks |
| CurationValidator.DispatchChecks | modules/curation_validator.py:100-133 | the seven selections and loops write the seven kinds' rows in dispatch order |
| CurationValidator.ValidateFiles | modules/curation_validator.py:64-140 | the result dictionary holds, at keys 0.., the rows of every file in file order |
| TextMatcher.NumberVerdict | modules/curation_validator.py:418-430 | two numerals: retain passes iff their values are equal, remove iff they differ; score 1 or 0 |
| TextMatcher.KeptMembers | modules/curation_validator.py:436 | filtering keeps exactly the tokens that are neither stop words nor punctuation |
| TextMatcher.FoundBounds | modules/curation_validator.py:438-446 | all tokens were found iff the count is the total; none iff it is 0 |
| TextMatcher.ScoresInRange | modules/curation_validator.py:448-473 | every score is in [0, 1] |
| TextMatcher.RaisesWhen | modules/curation_validator.py:413-473 | the comparison raises iff the expected value is null, or the token stage keeps no token |
| TextMatcher.RetainPasses | modules/curation_validator.py:459-473 | retain passes iff the numerals are equal, or the expected value occurs literally, or every kept token occurs |
| TextMatcher.RemovePasses | modules/curation_validator.py:459-473 | remove passes iff the numerals differ, or no kept token occurs; never on a literal occurrence |
| TextMatcher.ModesComplement | modules/curation_validator.py:423-471 | both modes raise or neither does; their scores add up to one; they never both pass |
| TextMatcher.IntegerRetainsPointZero | modules/curation_validator.py:406-407 | numerals compare by value: `<12>` retains `<12.0>` |
| TextMatcher.PointZeroSameNumber | modules/curation_validator.py:420-425 | `d.0` is a numeral equal to `d` |
| TextMatcher.BracketsIgnored | modules/curation_validator.py:413-414 | surrounding angle brackets make no difference to normalisation |
| TextMatcher.NormaliseFixes | modules/curation_validator.py:413-414 | a bracketed value without brackets or capitals inside normalises to its inner text |
| TextMatcher.TokenizeAndCheck | modules/curation_validator.py:432-455 | the counting loop yields the specified token verdict, or the division-by-zero error when no token is kept |
| TextMatcher.ValidateText | modules/curation_validator.py:397-475 | the staged comparison yields the specified verdict |
| ReportsHelper.FixedCategories | modules/reports_helper.py:188-202 | the fixed action-to-category table |
| ReportsHelper.PriorityFallThrough | modules/reports_helper.py:203-220 | text_removed takes the first set one of hipaa_m, hipaa_z, tcia_p15, tcia_ptkb, tcia_rev; text_retained the first set one of tcia_p15, tcia_ptkb, tcia_rev |
| ReportsHelper.FirstTruthyCons | modules/reports_helper.py:203-220 | a priority list takes its head when the head is set |
| ReportsHelper.CategoryOutcomes | modules/reports_helper.py:188-222 | `0` comes back iff the action is outside the table; `None` iff a text check has none of its columns set; a pair's category is dicom, hipaa or tcia |
| ReportsHelper.AssignCategories | modules/reports_helper.py:151-153 | the assignment, when it succeeds, gives one category per row |
| ReportsHelper.AssignmentRaises | modules/reports_helper.py:237-240 | as written, assigning the columns raises iff some row's category comes back `None` |
| ReportsHelper.TextRetainedWithoutColumnRaises | modules/reports_helper.py:214-220 | a text_retained row without TCIA columns makes the assignment raise |
| ReportsHelper.CategoryOf | modules/reports_helper.py:151-153 | the corrected columns agree with the source wherever it does not raise; the category is dicom, hipaa, tcia or unknown |
| ReportsHelper.CategoryColumnsNotLogged | modules/curation_validator.py:162-186 | none of the six category columns `check_category` reads is among the columns `log_error` writes |
| ReportsHelper.StoredCategoryRaises | modules/reports_helper.py:188-220 | as written, on the table `log_error` writes: `check_category` raises KeyError exactly for tag_retained, text_notnull, text_removed and text_retained rows, at `dicom_iod`, `hipaa_m` or `tcia_p15` |
| ReportsHelper.StoredCategoryAgrees | modules/reports_helper.py:188-220 | corrected: on a table that has the six category columns, `check_category` never raises KeyError and gives the category of the row that carries them |
| ReportsHelper.StoredCategories | modules/reports_helper.py:151 | the `apply` over a stored table gives, when it does not raise, one result per row |
| ReportsHelper.StoredCategoriesRaise | modules/reports_helper.py:151 | as written, categorising a table that `log_error` wrote raises exactly when the table holds a tag or text check |
| ReportsHelper.InternalSelectionRaises | modules/reports_helper.py:155-157 | as written, the internal selection names all six category columns, and the table lacks every one of them even after `category` and `subcategory` are added, so the selection raises KeyError on every table |
| ReportsHelper.ParticipantSelectionSucceeds | modules/reports_helper.py:159-160 | every column of the participants' selection is one the table has |
| ReportsHelper.TallyTotal | modules/reports_helper.py:183-184 | every row is counted once, in the column of its verdict, so the Total is the number of rows |
| ReportsHelper.WithKey | modules/reports_helper.py:180 | the entries with one key are no more than all entries |
| ReportsHelper.PivotTotals | modules/reports_helper.py:180-184 | the Total row's columns are the counts of all entries, and its Total is their number |
| ReportsHelper.PivotRows | modules/reports_helper.py:180 | the pivot has one row per key of its entries; each key's row holds the counts of that key's entries |
| ReportsHelper.PivotRowCounts | modules/reports_helper.py:180-182 | every pivot row carries its key's counts |
| ReportsHelper.SingleKeyPivot | modules/reports_helper.py:268-272 | entries that share one key pivot into a single row |
| ReportsHelper.Discrepancies | modules/reports_helper.py:141 | the discrepancy filter keeps at most the table |
| ReportsHelper.DiscrepanciesAreFailures | modules/reports_helper.py:141 | the kept rows are exactly the rows whose verdict is 0 or null |
| ReportsHelper.DiscrepancyCount | modules/reports_helper.py:141 | their number is the table's Blank plus Fail count |
| ReportsHelper.MaskingPolicy | modules/reports_helper.py:147-149 | LUT Data rows have file_value, answer_value and action_text replaced by `<Removed>`; nothing else changes |
| ReportsHelper.MaskKeepsCategory | modules/reports_helper.py:147-153 | masking before categorisation does not change a row's category |
| ReportsHelper.DiscrepancyRows | modules/reports_helper.py:139-162 | with the corrected categories of `CategoryOf` (see Findings): one internal row per discrepancy |
| ReportsHelper.DiscrepancyReport | modules/reports_helper.py:139-162 | with the corrected categories of `CategoryOf` (see Findings): the filter, mask and category loops build the masked, categorised discrepancies in order |
| ReportsHelper.WithRank | modules/reports_helper.py:174 | one rank's rows are no more than the table |
| ReportsHelper.SortIsPermutation | modules/reports_helper.py:174 | the sort is a permutation of the table |
| ReportsHelper.SortIsOrdered | modules/reports_helper.py:174 | sorted: failures, then passes, then blanks |
| ReportsHelper.Dedup | modules/reports_helper.py:175 | deduplication keeps at most the table |
| ReportsHelper.KeptIsRow | modules/reports_helper.py:175 | deduplication keeps only rows of the table |
| ReportsHelper.DedupKeys | modules/reports_helper.py:175 | deduplication loses no key |
| ReportsHelper.DedupDistinct | modules/reports_helper.py:175 | deduplication keeps one row per key |
| ReportsHelper.DedupKeepsFirstRank | modules/reports_helper.py:174-175 | on a sorted table the kept row has the lowest rank of its key's rows |
| ReportsHelper.SeriesKeepsKeys | modules/reports_helper.py:172-175 | series mode keeps rows of the table, exactly one per (action, tag, patient, study, series) key |
| ReportsHelper.SeriesKeepsWorst | modules/reports_helper.py:232-235 | the kept row is the worst of its group: failing if any row fails, blank only if all are blank |
| ReportsHelper.Frame.constructor | modules/reports_helper.py:166 | the working copy starts as the table |
| ReportsHelper.Frame.SortByPassed | modules/reports_helper.py:174 | sorting in place leaves the table sorted by verdict |
| ReportsHelper.Frame.DropDuplicates | modules/reports_helper.py:175 | deduplication in place keeps the first row of each key |
| ReportsHelper.SeriesView | modules/reports_helper.py:263-266 | a report's table is sorted and deduplicated in series mode and unchanged otherwise; it never grows |
| ReportsHelper.ActionEntries | modules/reports_helper.py:177-178 | one (action, verdict) entry per row |
| ReportsHelper.ActionReport | modules/reports_helper.py:164-186 | the action pivot and its Total row; the Total counts every row of the report's table |
| ReportsHelper.CategoryEntries | modules/reports_helper.py:242-245 | with the corrected categories of `CategoryOf` (see Findings): rows whose subcategory is null drop out of the pivot |
| ReportsHelper.CategoryReport | modules/reports_helper.py:224-253 | with the corrected categories of `CategoryOf` (see Findings): the category pivot and its Total row, which counts at most the rows of the table |
| ReportsHelper.ScoreMeaning | modules/reports_helper.py:290-294 | Pass/Total is a proportion; it is one iff no row failed or was blank, and zero iff none passed |
| ReportsHelper.ScoringEntries | modules/reports_helper.py:268-270 | one "All" entry per row |
| ReportsHelper.ScoringPivotShape | modules/reports_helper.py:268-277 | the scoring pivot is the single row "All" when there are rows, and it counts every row |
| ReportsHelper.ScoringReport | modules/reports_helper.py:255-301 | after the loop and the drop of the Total row, what is left is the "All" row, scored by the share of rows that passed |
| DciodvfyRunner.PathJoin | modules/dciodvfy_runner.py:65 | the joined path ends with the file name and, for a relative name, begins with the root |
| DciodvfyRunner.TypePattern | modules/dciodvfy_runner.py:89-96 | a line is reported iff `^Error|Warning` matches somewhere; its type is `<Error>` iff the line starts with Error, else `<Warning>` |
| DciodvfyRunner.TagSpanIsLeftmostShortest | modules/dciodvfy_runner.py:97-101 | the tag is the leftmost, shortest match between `<` and `>`; the whole line is used iff nothing matches |
| DciodvfyRunner.TextStartIsLeftmost | modules/dciodvfy_runner.py:102-106 | the message starts after the leftmost `> - `; the whole line is used iff there is none |
| DciodvfyRunner.ReportedLines | modules/dciodvfy_runner.py:88-89 | the reported lines are no more than the lines |
| DciodvfyRunner.ReportedLinesAreMatches | modules/dciodvfy_runner.py:88-89 | the reported lines are exactly the stderr lines the type pattern matches |
| DciodvfyRunner.RowsFor | modules/dciodvfy_runner.py:90-116 | one row per reported line |
| DciodvfyRunner.FileErrorsShape | modules/dciodvfy_runner.py:62-116 | with all six attributes: rows keyed 0..k-1 for the k reported lines, in line order; row n carries the type, tag and message of the n-th line and the wrapped joined path |
| DciodvfyRunner.CheckFile | modules/dciodvfy_runner.py:47-118 | no rows for an unreadable or empty data set; otherwise the parsed rows, or TypeError when a line is reported on a file lacking an attribute |
| DciodvfyRunner.CollectErrors | modules/dciodvfy_runner.py:88-116 | the loop over the lines builds exactly the specified dictionary, or raises at the first reported line when an attribute is missing |
| DciodvfyRunner.IndexPath | modules/dciodvfy_runner.py:26-45 | type 1 gives one `[root, [file]]` per file, type 2 one `[root, files]` per directory with files, any other type nothing |
| DciodvfyRunner.Singletons | modules/dciodvfy_runner.py:38-39 | one entry per file of a directory |
| DciodvfyRunner.DirectoryEntries | modules/dciodvfy_runner.py:41-43 | at most one entry per directory |
| DciodvfyRunner.IndexTypesAgree | modules/dciodvfy_runner.py:36-43 | both index types list every file of the walk exactly once, in walk order |
| DciodvfyRunner.EntryShapes | modules/dciodvfy_runner.py:36-43 | type-1 entries hold one file; type-2 entries hold a non-empty list |
| DciodvfyRunner.DirectoriesOnce | modules/dciodvfy_runner.py:40-43 | type 2 names each walked directory at most once, and only walked directories |
| RunValidation.AcceptableMeaning | run_validation.py:64-178 | a configuration passes iff: the ten keys hold non-blank strings; the input directory and the three mapping/answer files exist; multiprocessing evaluates; the CPU count is non-blank when it evaluates true; the level is one of the five names |
| RunValidation.RequiredKeysListed | run_validation.py:64-178 | the ten required keys, one by one |
| RunValidation.CheckKey | run_validation.py:64-71 | one presence-and-blank block: it clears the flag iff the key is missing or blank, and raises iff the value is not a string |
| RunValidation.CheckPath | run_validation.py:73-83 | a block that also requires the path to exist |
| RunValidation.CheckMultiprocessing | run_validation.py:130-147 | the multiprocessing block with its nested CPU-count block |
| RunValidation.CheckLevel | run_validation.py:159-169 | the level block: non-blank and one of the five names |
| RunValidation.CheckLoaded | run_validation.py:60-178 | every block runs; the flag that results is the conjunction of the blocks; an exception ends with false |
| RunValidation.CheckConfig | run_validation.py:57-184 | as written: a loaded file gives the configuration and its verdict; a file that cannot be loaded raises UnboundLocalError |
| RunValidation.CheckConfigReported | run_validation.py:57-184 | corrected: success iff the file loads and passes; the configuration is returned iff it loads |
| RunValidation.CpusOnlyWithMultiprocessing | run_validation.py:136-144 | with multiprocessing false, changing or removing the CPU count changes nothing |
| RunValidation.SetLevel | run_validation.py:34-44 | the five names map to their levels; anything else gives INFO |
| RunValidation.LevelsAgree | run_validation.py:34-44 | the level names `check_config` accepts are exactly those the mapping knows, with distinct levels; an accepted configuration never falls back to the default |
| Text.StripBlank | run_validation.py:66 | `s.strip() == ''` iff s is all whitespace |
| Text.RemoveAllFacts | modules/curation_validator.py:329-331 | `replace(c, '')` removes every c and keeps every other character |
| Text.RemoveFirst | modules/curation_validator.py:459 | `replace('.', '', 1)` removes one character iff there is a point |
| Text.CaseMapsPointwise | modules/curation_validator.py:413-414 | ASCII lower- and upper-casing act character by character |
| Text.FindChar | modules/dciodvfy_runner.py:97 | the first position of a character at or after a start |
| Text.FindSub | modules/dciodvfy_runner.py:102 | the first position of a substring at or after a start |
| Text.ContainsIffOccurs | modules/curation_validator.py:443 | `needle in hay` iff the needle occurs at some position |
| Text.ZFillNatInjective | modules/file_indexer.py:98 | `str(n).zfill(4)` of distinct numbers are distinct |
| Text.NatToStringValue | modules/file_indexer.py:98 | `str(n)` reads back as n |
| Text.HexInjective | modules/file_indexer.py:76 | four-digit hexadecimal rendering is injective below 16^4 |
| Text.LowByteDigits | modules/file_indexer.py:80 | the last two hexadecimal digits of an element number are its low byte |
| Text.Split | modules/dciodvfy_runner.py:87 | `split('\n')` gives at least one piece, and no piece holds the separator |
| Text.JoinSplit | modules/dciodvfy_runner.py:87 | joining the pieces with the separator gives back the text |

## Left out

- Process pools and batch fan-out: `get_validation_data`, `get_file_table` and the multiprocessing branch of `get_prepared_data`. Only the sequential per-batch functions are modelled. `AnswerPreparer.ConvertChunks` concatenates in chunk order, but `as_completed` returns batches in completion order, so the rows of the pooled result may be permuted.
- `dcmread` and file opening: a data set is a tree of elements (tag, private creator, name, VR, `str(value)`, items). `str(value)` for the many pydicom value types is taken as given.
- nltk `word_tokenize` and the stop-word and punctuation lists: they are the `Matcher` parameter.
- `float()` in `validate_number`: numerals compare by exact decimal value. Float rounding of very long numerals is not modelled.
- Logging set-up, log messages, `print`, and `traceback` formatting: no effect on results.
- The per-file `try`/`except` in `validate_files` and `json.loads` in `flatten_answer_data`: the answer rows carry their checks already decoded, so a malformed `AnswerData` that would end the file's checks early is not modelled.
- pandas mechanics: tables are sequences of records, and pivots are counts per key. A file's index is its position in the batch. The file table's null cells are kept as absent cells in columns, not as NaN.
- `ReportsHelper.Frame.SortByPassed`: pandas' default sort is not stable. The model keeps rows of equal verdict in table order, so in series mode which of several equally ranked rows survives deduplication is fixed here but arbitrary in pandas. The worst-rank guarantee holds either way.
- Pivot row order: the model lists pivot rows in order of first appearance, while pandas sorts the index.
- The Blank/Fail/Pass columns a pandas pivot omits when no row has that verdict: the model always has all three counts.
- The pandas behaviour of a pivot over an empty table.
- `ReportsHelper.ScoringReport`: the score is kept as the exact ratio Pass/Total. The two-decimal percent string and the float division are not modelled. `ScoreOf` gives no score for a zero total, where numpy would give NaN.
- The `Total` row of the scoring loop is scored and then dropped. The model scores it the same way before dropping it.
- The columns kept by `discrepancy_report`'s internal and participant selections: the internal rows keep the whole masked row plus category and subcategory. The model does record which selected columns the stored table lacks (`ReportsHelper.InternalSelectionRaises`).
- `category_scoring_report`: it is switched off in the report list, and its weighted score is float arithmetic.
- The consistency checks `uid_consistent`, `patid_consistent` and `pixels_retained`, and OCR: the core has no implementation of them. Their answer rows yield no result rows (`CurationValidator.OnlySevenKinds`), and their actions keep their fixed categories.
- sqlite, CSV and Excel reading and writing, and building the UID map: the map is a parameter.
- `subprocess.Popen` and stderr decoding: the validator's stderr is given as text.
- `os.walk`: the walk is given as a sequence of (root, dirs, files) steps.
- `os.path.isdir` and `os.path.isfile`: the `FileSystem` parameter.
- `eval` of the multiprocessing setting: the `Evaluator` parameter, with None when `eval` raises.
- JSON decoding of the configuration: a loaded configuration maps keys to strings or to any other value. A document that is not an object, and a key that occurs twice, are not modelled.
- `initialize_logging`'s directory creation, clock-based file name and handlers: only the level mapping is modelled.
- `DciodvfyRunner.CheckFile`: a data set that pydicom reads but which is empty is falsy in the source, and gives no rows. The model does not distinguish it from an unreadable file: both are `None`.
- Text.CaseMapsPointwise: case mapping and digits are ASCII only. `Text.Lower`, `Text.Upper` and `Text.IsDigits` map and accept only `A`-`Z`, `a`-`z` and `0`-`9`. Python's `lower()`, `upper()` and `isdigit()` are Unicode-aware: `'Ü'.lower()` is `'ü'`, `'ß'.upper()` is `'SS'`, and `'١٢'.isdigit()` is true. Those mappings and digits are not modelled.
- TextMatcher.ValidateText: with ASCII case mapping, a remove check of file value `<MÜLLER>` against answer `<Müller>` finds no literal in the model, where the source lowercases both to `müller` and fails the check. Unicode digits such as `'١٢'`, which Python's `float` reads as 12, are text here and not numerals.
- TextMatcher.NormaliseFixes: "no capitals" means no ASCII capitals.
- TextMatcher.RaisesWhen: the source also raises, leaving the verdict null, for a value such as `'²'` that `isdigit()` accepts and `float()` rejects. The model has no such values.
- FileIndexer.PrivateLabelForm: the private creator is upper-cased with the ASCII map.
- FileIndexer.RawLabelForm: `str(tag.tag)` is taken to be pydicom's `BaseTag.__str__` before version 3.0, `"({:04X}, {:04X})"`: four upper-case hexadecimal digits, with the comma-space that the `replace(', ', ',')` at modules/file_indexer.py:75, 87 and 92 removes (`FileIndexer.TagString`). pydicom is not part of this model. A pydicom that rendered lower-case digits would give different keys for every tag with a hex letter. The lower-case paths in the debug list at modules/file_indexer.py:111 are commented out and do not decide the rendering.
- ReportsHelper.DiscrepancyRows, ReportsHelper.DiscrepancyReport, ReportsHelper.CategoryEntries and ReportsHelper.CategoryReport: these use the corrected categories of `ReportsHelper.CategoryOf` and the category columns of `ReportsHelper.ReportRow`. They do not model either TypeError the source raises (first Findings row) or the KeyError (third Findings row). `run_reports.py` then logs and drops the report. The as-written raising is modelled separately: `ReportsHelper.AssignmentRaises`, `ReportsHelper.StoredCategoriesRaise` and `ReportsHelper.InternalSelectionRaises`.
- ReportsHelper.ReportRow: the reports read the answer key's six category columns from each result row. The table `log_error` writes has none of them (third Findings row), so the report members assume a results table that carries them.
- FileIndexer.IndexFiles: a file that cannot be opened, or that `dcmread` cannot parse even with `force=True`, is not modelled. Only a decoded data set that lacks an identity attribute is modelled, as AttributeError.

## Findings

| source | as written | input that shows it | evidently intended | confidence | as-written member | corrected member |
|---|---|---|---|---|---|---|
| modules/reports_helper.py:151-153 | `check_category` returns `None` for a text check none of whose category columns is set. The lambda `x[0] if x != 0 else 'unknown'` then subscripts `None`, since `None != 0`, and the whole report raises TypeError. The same happens at lines 239-240. This needs a table that has the category columns; without them the KeyError of the third row comes first. | one result row with action `<text_retained>` whose tcia_p15, tcia_ptkb and tcia_rev are all empty | such a row gets category and subcategory `unknown`, like an unknown action | not executed | ReportsHelper.TextRetainedWithoutColumnRaises | ReportsHelper.CategoryOf |
| run_validation.py:59-62 | When the file cannot be opened or decoded, `config` is never assigned. The handler at lines 180-182 sets the flag to false, but `return config, config_success` at line 184 raises UnboundLocalError. | a configuration path that does not exist | return no configuration with `config_success` false | not executed | RunValidation.CheckConfig | RunValidation.CheckConfigReported |
| modules/reports_helper.py:188-220 | `log_error` (modules/curation_validator.py:162-186) writes none of the answer key's category columns into a result row, and the results table the reports read is made of those rows. `check_category` then raises KeyError at `row['dicom_iod']`, `row['hipaa_m']` or `row['tcia_p15']` on the first tag or text row. The internal selection at lines 155-157 names these and three more missing columns, so the discrepancy report raises KeyError on every table. | a results table holding one `<tag_retained>` row | each result row carries its check's category columns, as the selection at lines 155-157 and the result record of the design expect | not executed | ReportsHelper.StoredCategoriesRaise | ReportsHelper.StoredCategoryAgrees |
