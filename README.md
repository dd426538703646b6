# GC product-mapping front end: a Dafny model of its labelling core

The application is a Flask site where labellers attach up to five product attributes
(`prod_attributes1..5`) to e-commerce sample rows. Each user sees only the categories and
brands on their allow-lists. This project models, in Dafny, the parts of the application that
decide who sees which rows and what a save writes:

- **Models** (`models.py`): the category and brand permission rules of a user, the three
  roles, the five attribute slots of a sample, the status rule shared by every save path
  (Labeled when slot 1 and at least one of slots 2-5 are filled, Incomplete otherwise) and
  `is_labeled`.
- **LabelingQuery** (`routes/labeling.py`, read side): the permission scope and every
  filter of the sample list, the status filter built condition by condition, pagination
  (50 rows a page), the dropdown option lists (DISTINCT, LIMIT 1000, sorted) with their
  user-scoped cache, and the choice of the next sample to label after an edit.
- **LabelingUpdate** (`routes/labeling.py`, write side): the POST branch of `edit_sample`,
  `batch_label` (permission loop, then the overwrite loop) and `batch_save` (each submitted
  row is a manual edit, an accepted pre-label, untouched or skipped), each followed by the
  cache clear it performs.
- **CsvHandler** (`utils/csv_handler.py`): the upload extension check, `safe_value`,
  `parse_date`, the mapping of a file row with its `Unlabeled` status default, the chunk
  loop that commits chunk by chunk and calls the progress callback, and the 24-column
  projection of the bulk loader with its `\N` NULL marker.
- **Cache** (`utils/cache.py`): the cache key, including the user's sorted allow-lists,
  lookup with strict expiry, store on a miss, the full clear and the user-scoped clear.
- **ProgressTracking** (`utils/progress_tracker.py`): the task table, with create, update,
  complete, fail, the report on a task, and the removal of old tasks.
- **Text** and **Wrappers** are helpers. Text holds the Python string built-ins the code relies
  on: `strip`, `lower`, `endswith`, `in`, `str(int)` and `sorted`. Wrappers holds `Option` and
  `Result`.

The sample table is a sequence of rows in storage order. A query without `ORDER BY` returns
rows in that order, and `query.get(id)` finds the row with that key. A route becomes a function
(or a value-returning method where the source loops) from the table before the commit to the
table after it. The cache and the progress tracker update their dictionaries in place, so each
is a class whose `map` fields its methods reassign. Time is an integer parameter in seconds.
The date parser is a parameter, and so is the file, given as its rows.

## Model

| member | source | states |
|---|---|---|
| Models.AllowListSemantics | code/app/models.py:29-43 | an absent allow-list grants every value, an empty one grants none, a present one grants exactly its members; a NULL category is granted only by an absent list; `has_permission` is the conjunction of both checks |
| Models.ExactlyOneRole | code/app/models.py:49-59 | every user satisfies exactly one of the three role properties |
| Models.DeriveStatus | code/app/routes/labeling.py:274-277 | the status is Labeled exactly when slot 1 is filled and one of slots 2-5 is filled, and Incomplete otherwise |
| Models.DeriveStatusOfTexts | code/app/routes/labeling.py:492-495 | on five stored texts, the rule gives Labeled exactly when the first text and some other text are non-empty |
| Models.IsLabeledExactly | code/app/models.py:129-132 | `is_labeled` holds exactly for Labeled, Historical and Incomplete; NULL, empty, Unlabeled and Prelabeled are not labelled |
| Models.DerivedStatusIsLabeled | code/app/models.py:129-132 | a row carrying a derived status counts as labelled and is never Prelabeled, Historical or Unlabeled |
| Text.StripLeftDropsLeadingSpace | code/app/routes/labeling.py:258-263 | `lstrip` leaves a suffix of the input, everything it drops is whitespace, and the suffix does not start with whitespace |
| Text.StripRightDropsTrailingSpace | code/app/routes/labeling.py:258-263 | `rstrip` leaves a prefix of the input, everything it drops is whitespace, and the prefix does not end with whitespace |
| Text.StripIsTrimmedSlice | code/app/routes/labeling.py:258-263 | `strip` returns a slice of the input with only whitespace cut from both ends, and the slice neither starts nor ends with whitespace |
| Text.StripIdempotent | code/app/routes/labeling.py:453-465 | stripping a stripped value changes nothing |
| Text.Lower | code/app/utils/csv_handler.py:11 | lower-casing keeps the length and maps each character on its own |
| Text.ContainsSlice | code/app/utils/cache.py:61 | a string contains every slice of itself |
| Text.ContainsSuffix | code/app/utils/cache.py:61 | a string contains each of its suffixes |
| Text.NatToString | code/app/routes/labeling.py:94 | `str(n)` is a non-empty string of decimal digits with no leading zero |
| Text.NatToStringRoundTrip | code/app/routes/labeling.py:94 | reading the digits of `str(n)` back gives `n` |
| Text.NatToStringInjective | code/app/routes/labeling.py:94 | different non-negative ids print as different strings |
| Text.IntToStringInjective | code/app/routes/labeling.py:94 | different ids print as different strings |
| Text.LexLeTotal | code/app/routes/labeling.py:38 | any two strings are comparable by Python's string order |
| Text.LexLeAntisymmetric | code/app/routes/labeling.py:38 | two strings each at most the other are equal |
| Text.LexLeTransitive | code/app/routes/labeling.py:38 | the string order is transitive |
| Text.Insert | code/app/routes/labeling.py:38 | inserting into a sorted list keeps it sorted and adds exactly the new element |
| Text.Sort | code/app/routes/labeling.py:38 | `sorted` returns a sorted permutation of its input |
| Text.SortedUnique | code/app/utils/cache.py:23-24 | two sorted lists holding the same strings are the same list |
| Text.SortPermutationInvariant | code/app/utils/cache.py:23-24 | sorting two permutations of one list gives the same list |
| Cache.PermissionTuple | code/app/utils/cache.py:23-24 | the key part of an allow-list is a sorted permutation of the list, and empty for an absent list |
| Cache.CacheKey | code/app/utils/cache.py:19-27 | a user-scoped key of an authenticated user is the base key followed by that user's permission suffix, and so contains the suffix; any other key is the base key |
| Cache.KeyIgnoresListOrder | code/app/utils/cache.py:23-25 | users whose allow-lists hold the same values in any order get the same key |
| Cache.AbsentAndEmptyListsCollide | code/app/utils/cache.py:23-24 | an absent allow-list and an empty one give the same key although they grant opposite permissions |
| Cache.WithoutMatching | code/app/utils/cache.py:61-66 | the user-scoped clear keeps exactly the keys that do not contain the user's suffix, with their values |
| Cache.StoredEntryLifetime | code/app/utils/cache.py:30-38 | a stored entry is served strictly before its expiry time and not from then on |
| Cache.ScopedClearDropsUserEntries | code/app/utils/cache.py:55-66 | after a user-scoped clear no user-scoped key of that user is live |
| Cache.MemoCache.constructor | code/app/utils/cache.py:6-7 | the cache starts empty |
| Cache.MemoCache.Call | code/app/utils/cache.py:29-40 | a live entry is returned without storing anything; otherwise the computed value is stored with expiry `computedAt + timeout` and returned |
| Cache.MemoCache.Clear | code/app/utils/cache.py:44-66 | a full clear (not user-scoped, or no user) empties both dictionaries; a scoped clear deletes exactly the keys holding the user's suffix |
| LabelingQuery.InScopeIsPermission | code/app/routes/labeling.py:80-86 | the SQL scope filters select exactly the rows `has_permission` grants |
| LabelingQuery.ReviewDateBounds | code/app/routes/labeling.py:126-137 | a malformed start date drops both bounds, a malformed end date drops only the upper bound, and either one raises the warning |
| LabelingQuery.DateBoundsInclusive | code/app/routes/labeling.py:130-135 | both bounds are inclusive; a row without a review date fails them; a malformed start date leaves no bound |
| LabelingQuery.RemoveFirst | code/app/routes/labeling.py:181 | `list.remove` drops one occurrence and keeps every other value |
| LabelingQuery.StatusConditions | code/app/routes/labeling.py:171-189 | the conditions the route builds admit exactly the statuses the status filter means, with "Unlabeled" also admitting NULL and the empty status |
| LabelingQuery.Select | code/app/routes/labeling.py:77-189 | the list query selects exactly the table rows in scope that pass every filter |
| LabelingQuery.QueryRowsIsSelect | code/app/routes/labeling.py:176-189 | running the query with the built status conditions gives the rows of the specified selection, in order |
| LabelingQuery.Paginate | code/app/routes/labeling.py:193-195 | a page holds the rows of its 50-row window (a page below 1 reads as page 1, a page past the end is empty), and the page count covers all rows |
| LabelingQuery.Samples | code/app/routes/labeling.py:72-195 | the route's listing is the specified page of the selection together with the date warning |
| LabelingQuery.ListedRowsInScope | code/app/routes/labeling.py:80-86 | every listed row is a table row the user may see and that passes every filter |
| LabelingQuery.NoFiltersMeansScopeOnly | code/app/routes/labeling.py:77-86 | with no filter arguments the list holds exactly the rows in the user's scope |
| LabelingQuery.NextSample | code/app/routes/labeling.py:284-301 | a next sample is a table row with a larger id, not labelled and in scope; none exists only when every such row is labelled |
| LabelingQuery.AttributeColumn | code/app/routes/labeling.py:50-51 | attribute number `n` names the column `prod_attributes{n}` |
| LabelingQuery.Candidates | code/app/routes/labeling.py:24-32 | the candidate values are exactly the non-NULL, non-empty values of the column over the rows in scope |
| LabelingQuery.Distinct | code/app/routes/labeling.py:35 | DISTINCT keeps each value once and loses none |
| LabelingQuery.NoDuplicatesByMultiplicity | code/app/routes/labeling.py:35 | a list without repeats holds each value at most once as a multiset |
| LabelingQuery.RepeatedValueCountsTwice | code/app/routes/labeling.py:35 | a value found at two positions of a list occurs at least twice in its multiset |
| LabelingQuery.MultiplicityGivesNoDuplicates | code/app/routes/labeling.py:38 | a list holding each value at most once has no repeats, so sorting keeps the options distinct |
| LabelingQuery.DistinctOptions | code/app/routes/labeling.py:13-39 | the options are sorted, distinct and drawn from the candidates; with more than 1000 distinct candidates there are exactly 1000 options, otherwise the options are exactly the distinct candidates |
| LabelingQuery.OptionsComeFromScope | code/app/routes/labeling.py:27-32 | every option offered to a user is a filled value of a row that user may see |
| LabelingQuery.CachedDistinctOptions | code/app/routes/labeling.py:12-39 | a live cached list is returned as stored and the cache is left unchanged; otherwise the freshly computed option list is returned and stored under its key with expiry `computedAt + 600`, and no other entry changes |
| LabelingQuery.CachedAttributeOptions | code/app/routes/labeling.py:41-68 | the same for the attribute dropdowns, keyed by the attribute number: a hit changes nothing, a miss stores the option list with a 600-second lifetime |
| LabelingUpdate.Find | code/app/routes/labeling.py:444 | `query.get(id)` finds the first row with that id, or none when no row has it |
| LabelingUpdate.FormSlots | code/app/routes/labeling.py:259-263 | a save writes every slot, each with the stripped form value |
| LabelingUpdate.ApplyEdit | code/app/routes/labeling.py:256-277 | an edit writes the stripped note and slots, changes no other column, and sets Labeled exactly when the stripped slot 1 and some other stripped slot are non-empty, else Incomplete |
| LabelingUpdate.EditSample | code/app/routes/labeling.py:249-301 | an unknown id is NotFound, a row out of scope is Forbidden, otherwise exactly that row is edited and the next sample is the one the next-sample query picks on the committed table |
| LabelingUpdate.EditChangesOnlyTheEditedRow | code/app/routes/labeling.py:256-279 | a committed edit leaves every other row as it was and changes only the note, slots and status of the edited row |
| LabelingUpdate.EditedSampleIsNotNext | code/app/routes/labeling.py:284-301 | the row just edited is never chosen as the next sample |
| LabelingUpdate.Overwrite | code/app/routes/labeling.py:373-382 | a non-empty batch value replaces its slot, an empty one keeps it |
| LabelingUpdate.Relabel | code/app/routes/labeling.py:372-396 | a selected row gets the filled batch values in their slots, keeps its other slots and columns, and the status derived from the result |
| LabelingUpdate.RelabelIdempotent | code/app/routes/labeling.py:372-396 | applying the same batch label twice equals applying it once |
| LabelingUpdate.FullRelabelIsUniform | code/app/routes/labeling.py:372-396 | a batch label with all five values gives every selected row the same slots and the Labeled status |
| LabelingUpdate.BatchLabel | code/app/routes/labeling.py:355-396 | it is denied exactly when some selected row is out of scope, and then it writes nothing and reports the id of such a row; otherwise each selected row is relabelled and every other row is kept |
| LabelingUpdate.Classify | code/app/routes/labeling.py:443-506 | a row is skipped exactly when its id is missing or out of scope; otherwise it is Manual exactly when some stripped value changed, Accepted exactly when unchanged, originally Prelabeled and accepted, and Untouched otherwise |
| LabelingUpdate.Saved | code/app/routes/labeling.py:483-504 | a manual save writes the stripped form slots, an acceptance keeps the slots, and both derive the status from the slots; the other branches change nothing |
| LabelingUpdate.SaveStep | code/app/routes/labeling.py:443-506 | one iteration keeps the table's length |
| LabelingUpdate.SaveNext | code/app/routes/labeling.py:443-506 | one iteration raises the two counters by at most one in total |
| LabelingUpdate.SaveAll | code/app/routes/labeling.py:443-506 | the loop keeps the table's length and counts at most one save or acceptance per submitted row |
| LabelingUpdate.SaveNextManual | code/app/routes/labeling.py:483-496 | a changed row in scope gets the stripped form slots and the derived status, and the manual counter grows by one |
| LabelingUpdate.SaveNextAccepted | code/app/routes/labeling.py:497-504 | an unchanged, accepted pre-labelled row in scope keeps its slots, gets the derived status, and the accepted counter grows by one |
| LabelingUpdate.SaveNextUntouched | code/app/routes/labeling.py:505-506 | any other row in scope and the counters stay as they were |
| LabelingUpdate.SaveNextSkipsHiddenRow | code/app/routes/labeling.py:444-450 | a missing row or a row out of scope changes nothing |
| LabelingUpdate.SaveAllSnoc | code/app/routes/labeling.py:443 | the loop over one more row is one more iteration |
| LabelingUpdate.SaveRow | code/app/routes/labeling.py:444-504 | the body of the loop performs exactly one specified iteration |
| LabelingUpdate.SaveAt | code/app/routes/labeling.py:443-506 | one pass of the loop at a row with an integer id extends the specified loop by that row |
| LabelingUpdate.BatchSave | code/app/routes/labeling.py:433-525 | the save is rolled back exactly when some submitted id is not an integer; otherwise the table and both counts are those of the specified loop |
| LabelingUpdate.UnchangedNonPrelabeledIsUntouched | code/app/routes/labeling.py:505-506 | an unchanged row whose original status is not Prelabeled is left alone, accepted or not |
| LabelingUpdate.SaveAllChangesOnlySubmittedPermittedRows | code/app/routes/labeling.py:443-506 | every row a batch save changes was submitted and is in scope, differs only in slots and status, and carries the status derived from its slots |
| LabelingUpdate.SaveAllKeepsOtherRows | code/app/routes/labeling.py:444-450 | rows out of scope, and rows whose id was not submitted, come out unchanged |
| LabelingUpdate.CommitEdit | code/app/routes/labeling.py:249-280 | the outcome is that of the edit; a committed edit removes exactly the editing user's entries from both cache dictionaries; a rejected one leaves the cache as it was |
| LabelingUpdate.CommitBatchLabel | code/app/routes/labeling.py:355-399 | the table and the denial are those of the batch label; a batch label that is written empties both cache dictionaries, a denied one leaves them as they were |
| LabelingUpdate.CommitBatchSave | code/app/routes/labeling.py:433-525 | the save is rolled back exactly when some submitted id is not an integer, otherwise its result is the specified loop's; both cache dictionaries are emptied exactly when the save committed and saved or accepted at least one row |
| CsvHandler.AfterLastDot | code/app/utils/csv_handler.py:11 | the extension is the dot-free suffix after the last dot, or the whole name when it has no dot |
| CsvHandler.FormatOf | code/app/utils/csv_handler.py:55-72 | a path is read as CSV exactly when it ends with `.csv`, as Excel exactly when it ends with `.xlsx` and not `.csv`, and is refused otherwise |
| CsvHandler.AfterLastDotOfExtension | code/app/utils/csv_handler.py:11 | a name made of any stem, a dot and a dot-free extension has a dot, and its extension is that extension |
| CsvHandler.AllowedFileAcceptsCsvNames | code/app/utils/csv_handler.py:8-11 | any name ending in `.csv` passes the upload check and is read as CSV by the importers |
| CsvHandler.AllowedFileAcceptsXlsxNames | code/app/utils/csv_handler.py:8-11 | any name ending in `.xlsx` passes the upload check and is read as Excel by the importers |
| CsvHandler.UpperCaseExtensionPassesCheckButNotImport | code/app/utils/csv_handler.py:8-11 | `X.CSV` passes the upload check but neither importer accepts it |
| CsvHandler.SafeValue | code/app/utils/csv_handler.py:32-41 | None and NaN give NULL, a number or bool gives its `str`, an empty text gives NULL, any other text is kept |
| CsvHandler.SafeValueKeepsFalseAndZero | code/app/utils/csv_handler.py:39-41 | `False` and `0` are kept as text, while an empty text becomes NULL |
| CsvHandler.ParseDate | code/app/utils/csv_handler.py:44-52 | a falsy or NA cell gives no date; otherwise a parsed day is returned as that day, a caught parser error gives no date, and the call fails exactly when the parser overflows |
| CsvHandler.StatusOf | code/app/utils/csv_handler.py:106 | the status is never empty: a missing or empty status becomes Unlabeled, any other is kept |
| CsvHandler.MapRow | code/app/utils/csv_handler.py:82-107 | a row fails exactly when its date parse raises; otherwise the mapping carries the parsed date, the defaulted status and, in every other column and each of the five attribute slots, the `safe_value` of the row's cell of that name |
| CsvHandler.StatusDefault | code/app/utils/csv_handler.py:106 | a file without a status column, or an empty or NaN status, gives Unlabeled; a non-empty status text is kept |
| CsvHandler.ToSample | code/app/utils/csv_handler.py:111-113 | an inserted mapping becomes a table row with its id and every mapped column, the status included, copied unchanged |
| CsvHandler.ImportedWithoutStatusIsListedAsUnlabeled | code/app/utils/csv_handler.py:106 | a row imported without a status is listed under the "Unlabeled" status filter |
| CsvHandler.MapRows | code/app/utils/csv_handler.py:80-108 | a chunk that maps yields one mapping per row |
| CsvHandler.MapRowsPointwise | code/app/utils/csv_handler.py:80-108 | a chunk fails exactly when one of its rows fails, and otherwise maps row by row in order |
| CsvHandler.MapChunk | code/app/utils/csv_handler.py:80-108 | the row loop produces the specified mappings of the chunk, or fails when the chunk does |
| CsvHandler.FlattenCons | code/app/utils/csv_handler.py:75 | concatenating the chunks distributes over a first chunk |
| CsvHandler.Chunks | code/app/utils/csv_handler.py:60 | the chunks hold between 1 and `chunk_size` rows each and together are the file in order |
| CsvHandler.RunChunks | code/app/utils/csv_handler.py:75-125 | the loop calls the progress callback at most once per chunk |
| CsvHandler.MapRowsConcat | code/app/utils/csv_handler.py:80-108 | mapping two parts in a row is mapping their concatenation |
| CsvHandler.RunChunksCommitsEveryRow | code/app/utils/csv_handler.py:110-114 | when no row raises, every row of the file is committed, mapped and in order |
| CsvHandler.RunChunksKeepsCommittedChunks | code/app/utils/csv_handler.py:129-131 | a failed import keeps exactly what the chunks before the first failing chunk committed |
| CsvHandler.RunChunksStepFails | code/app/utils/csv_handler.py:129-131 | a chunk that raises rolls back only itself and ends the import |
| CsvHandler.RunChunksStepMaps | code/app/utils/csv_handler.py:110-122 | a chunk that maps is appended, with one progress call carrying the new count, unless it is empty |
| CsvHandler.ProgressIsMonotone | code/app/utils/csv_handler.py:116-122 | the processed counts strictly grow, stay within the committed rows, and equal the total for CSV or report the row count as total for Excel |
| CsvHandler.InsertedAtMostRows | code/app/utils/csv_handler.py:114 | the count never exceeds the file's rows |
| CsvHandler.ImportCsvToDb | code/app/utils/csv_handler.py:13-131 | an unsupported name or a refused chunk size fails before any row; otherwise the outcome, the inserted rows and the callback calls are those of the specified chunk loop after the reading calls |
| CsvHandler.CommitChunks | code/app/utils/csv_handler.py:75-125 | the chunk loop's result is the specified one |
| CsvHandler.RunChunksStaysFailed | code/app/utils/csv_handler.py:129-131 | after a failing chunk, later chunks change nothing |
| CsvHandler.CsvImportCountsEveryRow | code/app/utils/csv_handler.py:114-122 | a successful CSV import inserts every row and its last progress call reports the final count as processed and total |
| CsvHandler.LastEventIsFinalCount | code/app/utils/csv_handler.py:117-122 | the last progress call carries the number of committed rows |
| CsvHandler.BulkValue | code/app/utils/csv_handler.py:147-150 | None, NaN and the empty text become `\N`, any other value its `str` |
| CsvHandler.BulkLine | code/app/utils/csv_handler.py:164-177 | each written line has the 24 columns in table order, each field the bulk value of the row's cell under that column |
| CsvHandler.PrepareBulkRows | code/app/utils/csv_handler.py:153-177 | an unsupported name is refused; otherwise one line per row, each the specified line |
| CsvHandler.LoadField | code/app/utils/csv_handler.py:179-187 | the loader reads `\N` as NULL and keeps any other field |
| CsvHandler.ReadBack | code/app/utils/csv_handler.py:174-185 | the loader, splitting at its line terminator, gets back every field of a written line but the last unchanged, and the last one followed by whatever the writer's terminator holds before the final newline |
| CsvHandler.LoaderTerminatorKeepsFields | code/app/utils/csv_handler.py:174-185 | a line ended with the loader's own terminator is read back exactly as written |
| CsvHandler.BulkCellAgreesWithImport | code/app/utils/csv_handler.py:147-150 | one cell whose text is not `\N`, written by the bulk loader and read back, gives the chunked importer's `safe_value` of it |
| CsvHandler.MappingFieldIsSafeValue | code/app/utils/csv_handler.py:82-104 | bulk column `j` of a mapped row, for the 22 columns other than the review date and the status, is the `safe_value` of the row's cell under that column |
| CsvHandler.BulkAgreesWithImport | code/app/utils/csv_handler.py:147-185 | reading the file as it is written, the bulk loader stores in each of the 22 columns other than the review date and the status the value the chunked importer inserts, for every cell whose text is not `\N` |
| CsvHandler.SentinelTextDiffers | code/app/utils/csv_handler.py:147-150 | a text cell reading `\N` is kept as text by the chunked importer and loaded as NULL by the bulk loader |
| CsvHandler.WrittenStatus | code/app/utils/csv_handler.py:174-185 | as written, the status field is loaded as the written status text followed by a carriage return, never as NULL |
| CsvHandler.WrittenMissingStatusIsNotUnlabeled | code/app/utils/csv_handler.py:174-185 | as written, a row without a status is loaded with the status `\N` and a carriage return, which the "Unlabeled" status filter does not list |
| CsvHandler.WrittenLabeledStatusIsNotLabeled | code/app/utils/csv_handler.py:174-185 | as written, a row with the status Labeled is loaded as "Labeled" and a carriage return, which `is_labeled` does not count as labelled |
| CsvHandler.BulkMissingStatusIsListedAsUnlabeled | code/app/utils/csv_handler.py:164-185 | with lines ended by the loader's terminator, a missing status is loaded as NULL, which the "Unlabeled" status filter lists |
| ProgressTracking.NewTask | code/app/utils/progress_tracker.py:17-23 | a new task is processing, with no progress, the given total and the current start time |
| ProgressTracking.Updated | code/app/utils/progress_tracker.py:28-33 | an update sets the progress, and the total and the message only when given |
| ProgressTracking.CompletedTask | code/app/utils/progress_tracker.py:39-41 | completion sets the status and the message and makes the progress equal to the total |
| ProgressTracking.FailedTask | code/app/utils/progress_tracker.py:47-48 | failure sets the status and the message and keeps progress, total and start time |
| ProgressTracking.Describe | code/app/utils/progress_tracker.py:53-75 | the percentage is `progress * 100 / total` for a positive total and 0 otherwise; speed and remaining time are 0 unless progress and total are positive; reading such a task in the second it started raises |
| ProgressTracking.Unexpired | code/app/utils/progress_tracker.py:81-87 | cleanup keeps exactly the tasks with `now - start <= max_age`, unchanged |
| ProgressTracking.CompletedReportsFullPercentage | code/app/utils/progress_tracker.py:41 | a completed task with a positive total reports exactly 100 percent |
| ProgressTracking.CompletedStillDividesInItsFirstSecond | code/app/utils/progress_tracker.py:65-66 | a completed task with a positive total read in its first second still divides by zero |
| ProgressTracking.PercentageWithinBounds | code/app/utils/progress_tracker.py:56-57 | with progress between 0 and a positive total, the percentage lies between 0 and 100 |
| ProgressTracking.FailingKeepsTheNumbers | code/app/utils/progress_tracker.py:43-48 | failing a task changes neither its percentage, speed nor remaining time |
| ProgressTracking.NewTaskReportsNothingDone | code/app/utils/progress_tracker.py:17-23 | a new task always reports 0 percent, no speed and no remaining time |
| ProgressTracking.UnexpiredIdempotent | code/app/utils/progress_tracker.py:78-87 | a second cleanup at the same time removes nothing more |
| ProgressTracking.NewTaskSurvivesCleanup | code/app/utils/progress_tracker.py:84 | a task created now survives a cleanup now with a non-negative age limit |
| ProgressTracking.ProgressTracker.constructor | code/app/utils/progress_tracker.py:10-12 | the tracker starts with no tasks |
| ProgressTracking.ProgressTracker.CreateTask | code/app/utils/progress_tracker.py:14-23 | creation sets or replaces the entry of that id and no other |
| ProgressTracking.ProgressTracker.UpdateProgress | code/app/utils/progress_tracker.py:25-33 | an unknown id changes nothing; otherwise only that entry is updated |
| ProgressTracking.ProgressTracker.CompleteTask | code/app/utils/progress_tracker.py:35-41 | an unknown id changes nothing; otherwise only that entry is completed |
| ProgressTracking.ProgressTracker.FailTask | code/app/utils/progress_tracker.py:43-48 | an unknown id changes nothing; otherwise only that entry is failed |
| ProgressTracking.ProgressTracker.GetProgress | code/app/utils/progress_tracker.py:50-76 | an unknown id gives None; otherwise the report on the entry, which is left unchanged |
| ProgressTracking.ProgressTracker.CleanupOldTasks | code/app/utils/progress_tracker.py:78-87 | the deletion loop leaves exactly the unexpired tasks |

## Left out

- Flask, SQLAlchemy, pandas, MySQL and the file system are not modelled. Request
  arguments arrive already parsed. The table is a sequence. A file is its rows of cells. The
  flash messages, templates and redirects are reduced to the outcome they signal.
- The GET branches of `edit_sample` and `batch_label` render templates and change nothing.
  The GET branch of `edit_sample` calls `get_all_attribute_options` and
  `filter_attribute_options`, which `routes/labeling.py` does not define. They are not part
  of this model.
- LabelingUpdate.BatchLabel: the model takes the parsed id list. An empty `ids` argument and
  an id that `int()` refuses both redirect without writing anything.
- LabelingQuery.KeywordMatches: the `LIKE '%kw%'` tests are plain substring tests. `%` and
  `_` inside the keyword are not treated as wildcards, and MySQL's case-insensitive collation
  is not modelled. The same collation caveat applies to every `IN` filter.
- LabelingQuery.DistinctOptions: which 1000 distinct values `LIMIT` keeps is up to the
  database. The model keeps the first ones in table order.
- Text.Lower: only ASCII letters are lower-cased. Python's `str.lower` also folds other
  scripts.
- Cache.CacheKey: `repr` of an allow-list value is modelled as the value in single quotes.
  Python escapes quotes and backslashes inside the value.
- The `threading.Lock` of the progress tracker and the process-wide cache dictionaries become
  one sequential object each. Concurrent requests are not modelled.
- ProgressTracking.Describe: the percentage, elapsed time, speed and remaining time are
  floats rounded to 2 or 1 decimals. The model reports each one as the exact quotient it is
  rounded from, and `time.time()` is whole seconds. The division by zero therefore happens
  when the task is read in the second it started. In the source it happens only when no time
  at all has passed.
- CsvHandler.ImportCsvToDb: dtype inference, the UTF-8 BOM handling and the column names
  pandas derives are not modelled. Neither are the `print` fallback and the messages.
- CsvHandler.ParseDate: dateutil's parser is a parameter returning a day, an error it raises
  that is caught, or an OverflowError. The OverflowError escapes `parse_date` and fails the
  import.
- CsvHandler.PrepareBulkRows: the `csv.writer` quoting of fields holding a comma, a quote or a
  line break is not modelled, so ReadBack splits lines only at their terminator. Neither is
  MySQL's handling of backslash escapes other than a whole `\N` field (LoadField keeps `\N`
  inside a longer field as text), nor the temporary-file clean-up. The date column is written
  as the cell's text and converted by MySQL, which is not modelled.
- CsvHandler.BulkAgreesWithImport: covers the 22 columns both importers pass through their
  `safe_value`. The review date is converted by MySQL and the status is covered by the
  Written* lemmas, so both are left out of it.
- `import_csv_to_db_ultra_fast` has no caller in the repository: the upload route
  (`routes/admin.py:42`) calls `import_csv_to_db` only. Its model describes what it would
  store if called.
- `export_samples_to_csv`, `get_unique_categories`, `get_unique_brands`, the `stats` route,
  the admin and authentication routes and the password hashing are outside the modelled core.

## Findings

| source | as written | input that shows it | evidently intended | confidence | as-written member | corrected member |
|---|---|---|---|---|---|---|
| code/app/utils/csv_handler.py:174-185 | `csv.writer` ends each line with its default `\r\n`, while LOAD DATA splits lines at `'\n'`, so the carriage return stays on the last field, the status | a row without a status is loaded with the status `\N` followed by `\r` instead of NULL; a row with status Labeled is loaded as "Labeled" followed by `\r` | each field reaches the table as written, so a missing status is NULL and listed as Unlabeled | not executed | CsvHandler.WrittenMissingStatusIsNotUnlabeled | CsvHandler.BulkMissingStatusIsListedAsUnlabeled |
