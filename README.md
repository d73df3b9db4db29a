# Cambridge CS admissions statistics: the extraction core

This project models, in Dafny, the core of a tool that reads the published
Cambridge Computer Science admissions statistics. The tool turns each PDF
page's positioned words into typed applicant records (A-Level, GCSE or TMUA).
It then filters the stored records by year and outcome and builds frequency
tables of grades, nines and scores. The model covers three parts:

- **Page scan** (`Extract`, modelling `src/extract.py`). One left-to-right
  pass over a page's words does three things:
  - It appends each word's text to the list of its block, with blocks kept in
    first-seen order.
  - It records the x-extent of the header phrases "Original College",
    "Other College" and "in Winter" in three calibration slots. The slots
    persist across pages.
  - Once every slot is set, it tags each bare `Y` with `Y0`, `Y1` or `Y2` for
    each column whose extent contains the word's left edge.

  Each block is then classified by fixed positions, out-of-range TMUA records
  are dropped, and the page's records form one batch. Each batch is handed
  over (stored and committed) before the next page is read, so a run that
  raises on a page keeps the batches of the pages before it. The scan is imperative:
  class `Extractor` holds the 3-slot calibration array, and its methods are
  proved equal to specification functions (`Calibrate`, `BlockText`,
  `PageResult`, `RunSpec`; `ExtractSpec` is the all-or-nothing view of a
  run). The properties are proved as lemmas about
  those functions.
- **Record parsers and serialisers** (`Data`, modelling `src/data.py`):
  - the three `from_words` parsers, with the A-Level grade loop as a method;
  - the export tuple and the JSON object, each with a reader proving that no
    field is lost;
  - the space-join/split storage of grade lists.
- **Analysis** (`Analysis`, modelling `src/analysis.py`):
  - outcome matching and the year/outcome filter;
  - `Counter.most_common()`, modelled as a stable descending sort of
    first-seen (value, count) pairs;
  - the loop that builds a summary table ending in an "All" row;
  - the `[:-1]` export slices and sheet-name truncation;
  - the three analysis tabs as classes whose update methods refilter and
    rebuild their tables.

Python behaviour the core relies on is modelled in `PyText`:
- `str.split()` and `" ".join`;
- `int()` on a decimal string;
- string ordering, which is code-point lexicographic with a prefix first, so
  `"A" < "A*"`;
- `list.sort()`.

Python exceptions that abort a run (`IndexError`, `ValueError`) are
`Result` failures (`Wrappers`).

Where one might expect otherwise, the model follows the code:
- A marker inside two overlapping column extents receives **both** tags, in
  column order. The code has no "earlier column wins" rule
  (`src/extract.py:56-58`).
- A block of fewer than four words is not skipped. `record[3]` raises
  `IndexError` and aborts the run (`src/extract.py:61`).
- Calibration slots are not write-once. A later header phrase overwrites its
  slot (`src/extract.py:52`).
- A page whose last word is "Original", "Other" or "in" raises `IndexError`
  in the header lookahead (`src/extract.py:48`).
- A page that yields no records raises `IndexError` at `data[0]`
  (`src/extract.py:79`).

## Model

| member | source | states |
|---|---|---|
| PyText.Split | src/data.py:127 | `str.split()` returns only non-empty pieces without whitespace |
| PyText.SplitJoin | src/data.py:104-132 | splitting a space-joined list of tokens gives the list back, the empty list included |
| PyText.ParseShow | src/data.py:137-138 | `int(str(n)) == n` for the decimal reading of year and id |
| PyText.SortStringsCorrect | src/data.py:149 | `grades.sort()` yields an ascending (Python string order) permutation of its input |
| PyText.SortedUnique | src/data.py:149 | two ascending arrangements of the same strings are equal, so the sorted grade list is determined by the collected grades |
| Data.ALevelFromWords | src/data.py:135-151 | the indexed grade loop with `append`, then the sort, returns exactly the A-Level record or error described by `ALevelOf` |
| Data.ALevelOfFields | src/data.py:135-151 | A-Level parsing fails iff the block has fewer than 9 words, `record[7]`/`record[8]` is not a decimal, or the last word ends with ":" (lookahead past the end); otherwise year = int(record[7]), id = int(record[8]), the outcome flags are membership of Y0/Y1/Y2, and grades are sorted, a permutation of the colon-anchored grades, drawn from {A*, A, B, C, D, E}, no more than the colon-terminated words |
| Data.ColonGradesExact | src/data.py:146-148 | a grade is collected iff it directly follows a word ending with ":" and is in the grade set |
| Data.ColonGradesBounded | src/data.py:146-148 | every collected grade is in the grade set and there are at most as many as colon-terminated words |
| Data.ALevelGradesExact | src/data.py:146-149 | a string is in the sorted grade list iff it follows a colon-terminated word and is a grade |
| Data.GCSEOfFields | src/data.py:206-215 | GCSE parsing fails iff the block has fewer than 8 words or `record[6]`, `record[7]` or the last word is not a decimal; otherwise year, id and nines are read from those words and the flags are tag membership |
| Data.TMUAOfFields | src/data.py:274-285 | TMUA parsing succeeds iff there are at least 5 words, `record[3]`/`record[4]` are decimals and the last three words parse as scores; paper1, paper2 and overall are the last three words in order |
| Data.GradesStorageRoundTrip | src/data.py:104-132 | grades stored as `" ".join` and read back with `split()` are the original list, the empty list included |
| Data.ExportRoundTrip | src/data.py:63-68 | the export tuple is (year, id, original, other, pool) plus the kind's fields (joined grades / nines / three scores), and reading it back gives the record |
| Data.JsonKeys | src/data.py:70-78 | the JSON object's keys are exactly year, apply_id and the three outcome keys plus the kind's own keys, which are disjoint from them |
| Data.JsonRoundTrip | src/data.py:70-78 | the JSON object (booleans as booleans, grades as a list) reads back to the record |
| Extract.TagsExact | src/extract.py:53-58 | a `Y` at x gets tag `Y<j>` iff all three slots are set and slot j contains x (inclusive); the tags come in column order |
| Extract.OverlappingColumnsTagTwice | src/extract.py:56-58 | a marker inside two overlapping column extents receives both tags |
| Extract.CalibrateAtSlot | src/extract.py:43-52 | checking one word sets slot j to (word.min_x, next.max_x) iff the word and its successor spell header j, and leaves every other slot unchanged |
| Extract.CalibrateLastMatch | src/extract.py:33-52 | after the scan passes n words, slot j holds the extent of the last header phrase j among them, or its value from before the page if there is none |
| Extract.CalibrateAfterHeader | src/extract.py:43-52 | after a header phrase j at h and none since, slot j is that phrase's extent |
| Extract.CalibrationKeepsSetSlots | src/extract.py:52 | a slot once set is never cleared by a page |
| Extract.NoTagsBeforeCalibration | src/extract.py:53 | while a slot is unset and its header has not appeared, every block's list is exactly its word texts: no tag is added |
| Extract.BlockTextIsWordsPlusTags | src/extract.py:40-42 | on a page where no word is itself spelt `Y0`, `Y1` or `Y2`, removing the tags from a block's list leaves exactly that block's word texts in token order |
| Extract.EmittedInPlace | src/extract.py:40-58 | on every page, each word's text sits in its block's final list at the position the list had reached before it, with a marker's tags immediately after it, as one contiguous run |
| Extract.MarkerTagged | src/extract.py:53-58 | a `Y` inside slot j, once all slots are set, puts tag `Y<j>` into its block's list |
| Extract.HeaderCoversMarker | src/extract.py:43-57 | a header phrase found earlier on the same page calibrates a later `Y` whose left edge lies in its extent |
| Extract.BlockOrderExact | src/extract.py:40-60 | under any calibration, the block order lists each block id once, iff one of its words has been seen, i.e. iff its list is non-empty |
| Extract.ClassifyPrecedence | src/extract.py:60-66 | fewer than 4 words raises IndexError; `record[3]=="A"` gives A-Level, else `"GCSE"` gives GCSE, else `record[0]=="Computer"` gives TMUA, else no record; the record kind matches the rule that fired |
| Extract.CollectedExactly | src/extract.py:59-75 | the page's records are the classified records of its blocks that are kept: no TMUA record with a score outside [1, 9] is ever collected, and every kept record of a block is |
| Extract.PageBatchValid | src/extract.py:59-79 | a page either raises or yields a non-empty batch whose kind is its first record's and whose records are all kept; a last word needing a successor raises IndexError |
| Extract.GCSEBlockExample | src/data.py:206-215 | a GCSE block with "2023", "10045", "9" yields GCSE(id 10045, year 2023, nines 9, no offers) |
| Extract.TMUAOutOfRangeExample | src/extract.py:65-75 | a TMUA block with scores 5.5, 0.0, 5.2 is classified but not collected |
| Extract.ALevelBlockExample | src/data.py:146-149 | "Chemistry:", "B", "Physics:", "A*" yields grades ["A*", "B"] |
| Extract.ExtractNotRetroactive | src/extract.py:33-79 | when every page succeeds, the batches of a run over `pages + more` are those of `pages` followed by those of `more` run from the calibration `pages` left; an error anywhere makes the all-or-nothing result that error |
| Extract.RunAgreesWithExtract | src/extract.py:33-79 | a run fails iff `ExtractSpec` raises, with the same error, and otherwise hands over exactly `ExtractSpec`'s batches |
| Extract.RunStopsAtFailure | src/extract.py:33-79 | a run hands over the batches of the longest prefix of pages that succeeds, equal to a run over that prefix alone, and a failing run reports the error of the first page after it |
| Extract.RunKeepsHanded | src/data.py:46-50 | batches once handed over stay handed over: extending the pages never removes or changes them, and after a failure nothing more is handed over |
| Extract.SlotsPersistAcrossPages | src/extract.py:33-35 | a calibration slot set before a run of pages is still set after it |
| Extract.CalibrateAtNoSuccessor | src/extract.py:48 | at the last word no header can match, so calibration leaves the slots unchanged |
| Extract.ClassifyBlocks | src/extract.py:59-75 | the classification loop (with `continue` for out-of-range TMUA records) returns the records or the first error of `CollectRecords` |
| Extract.Extractor.constructor | src/extract.py:33 | the calibration starts as three unset slots |
| Extract.Extractor.CalibrateWord | src/extract.py:43-52 | the header loop updates the slots as `CalibrateAt`, and raises iff the word is the last one and spells a header's first word |
| Extract.Extractor.MarkerTags | src/extract.py:53-58 | the tag loop returns the tags of `Tags` for the marker's left edge |
| Extract.Extractor.ScanWord | src/extract.py:41-58 | one iteration appends the word's text and its tags to its block and advances the calibration by one word |
| Extract.Extractor.GroupWords | src/extract.py:40-58 | the word loop leaves the slots as `Calibrate` over the page, fails iff the last word needs a successor, and otherwise builds the block lists and order of `BlockText`/`BlockOrder` |
| Extract.Extractor.ScanPage | src/extract.py:37-79 | the per-page body returns `PageResult` and leaves the calibration for the next page |
| Extract.ExtractPages | src/extract.py:26-79 | the page loop, with one calibration shared by all pages, hands over each page's batch before reading the next and stops at the first error: it returns `RunSpec` from three unset slots |
| Analysis.EveryRecordHasAnOutcome | src/analysis.py:41-63 | every record matches `any` and at least one other outcome |
| Analysis.NothingExcludesOffers | src/analysis.py:53-63 | `nothing` matches iff none of the three named outcomes does |
| Analysis.FilterMembers | src/analysis.py:251-253 | a record is in the filtered list iff it is in the data, its year is selected and it matches the outcome |
| Analysis.FilterAppend | src/analysis.py:251-253 | filtering distributes over concatenation, so the original order is kept |
| Analysis.FilterIdempotent | src/analysis.py:251-253 | filtering the filtered list again changes nothing |
| Analysis.FilterKeepsAll | src/analysis.py:251-253 | with `any` and all the data's years selected, every record is kept |
| Analysis.SortDescCorrect | src/analysis.py:257 | the most-common sort is a permutation, non-increasing by count, keeps the total count and keeps equal counts in their original order |
| Analysis.MostCommonCorrect | src/analysis.py:254-257 | `most_common()` lists each distinct value once with its occurrence count (> 0), by non-increasing count, counts summing to the number of values, ties in first-seen order |
| Analysis.SummaryTable | src/analysis.py:256-263 | the row-building loop returns one row per most-common pair followed by ("All", number of values) |
| Analysis.SummaryRowsCorrect | src/analysis.py:254-263 | a summary table ends with ("All", n), the other rows have distinct values with their true counts, non-increasing, summing to n, and every value appears |
| Analysis.SummaryExportDropsAll | src/analysis.py:205-216 | `rows[:-1]` of a summary table is its value rows, one per distinct value, with no "All" row |
| Analysis.ALevelSummaryJsonSound | src/analysis.py:268-274 | each A-Level summary JSON entry's `split()` key is the grade list of some filtered record, with the number of filtered records sharing that joined grade string |
| Analysis.ALevelSummaryJsonComplete | src/analysis.py:268-274 | every filtered record's grade list appears as an A-Level summary JSON entry |
| Analysis.ValueSummaryJsonExact | src/analysis.py:330-336 | a value table's JSON entries are exactly (v, count of v) for each value v that occurs, one entry per distinct value |
| Analysis.GCSESummaryJsonExact | src/analysis.py:330-336 | the GCSE summary JSON has an entry (n, c) iff some filtered record has n nines and c filtered records do |
| Analysis.TMUASummaryJsonExact | src/analysis.py:389-395 | the TMUA summary JSON of the selected column has an entry (s, c) iff some filtered record scored s in it and c filtered records did |
| Analysis.GradeKeys | src/analysis.py:254-255 | one joined grade string per filtered record |
| Analysis.NinesOf | src/analysis.py:306 | one nines value per filtered record, so the "All" row counts the filtered records |
| Analysis.ScoresOf | src/analysis.py:378 | one score per filtered record for the chosen column |
| Analysis.ALevelAnalysis.constructor | src/analysis.py:228-244 | the tab starts filtered on all A-Level years and original-college offers, with its table built |
| Analysis.ALevelAnalysis.UpdateTable | src/analysis.py:246-266 | refiltering sets the filtered records and rebuilds the table of joined grade lists |
| Analysis.GCSEAnalysis.constructor | src/analysis.py:280-297 | the tab starts filtered on all GCSE years and original-college offers |
| Analysis.GCSEAnalysis.UpdateOutput | src/analysis.py:299-328 | refiltering sets the filtered records and rebuilds the table of nines |
| Analysis.TMUAAnalysis.constructor | src/analysis.py:342-359 | the tab starts filtered on all TMUA years and original-college offers |
| Analysis.TMUAAnalysis.UpdateOutput | src/analysis.py:361-381 | refiltering sets the filtered records and builds one score table each for paper 1, paper 2 and overall |
| Analysis.SheetNameBounded | src/analysis.py:193-216 | a sheet name is a prefix of its title, at most 31 characters, and the whole title iff it fits |
| Analysis.ALevelSummarySheetName | src/analysis.py:211-216 | "Summary Predicted A-Level Grades" (32 characters) becomes "Summary Predicted A-Level Grade" |

## Left out

- Reading the PDF with `fitz` (`src/extract.py:34-38`) is a foreign library call. Each page's words are an input sequence, and the page range 3–100 is whatever sequence of pages is passed.
- Progress printing (`src/extract.py:36`) is output only.
- `insert_records` and the SQL in `get_data`, `create_table`, `Database`, `new_database` and `most_recent_database` are SQLite, filesystem and clock I/O. Only the grade join/split encoding is modelled. The batches a run hands over before it stops (`RunSpec`) are the model's result.
- `src/export.py` (file dialogs and CSV/XLSX/JSON writers) and the raw-export properties of `ExportFrame` are I/O. The shapes they write are `Data.ExportRecord` and `Data.JsonObject`.
- The tkinter widgets (`Table`, `CsStatsAnalysis`, `YearSetting`, `OutcomeSetting`, `ExportFrame`) and the DPI call are left out. The selected years and outcome are parameters, and the selected TMUA table is a `ScoreField`.
- Percentages (`count / n * 100`, rounded with `:.1f`) are floating-point formatting, so rows carry counts only.
- `statistics.mean`/`quantiles`, `min` and `max` in the GCSE and TMUA tabs are floating-point summary statistics. `statistics.quantiles` raises on too few values, which aborts `update_output` before its table is built; the model builds the table regardless.
- `float()` is an abstract `parseScore` parameter: NaN, infinities and the float grammar are not modelled.
- `int()` is modelled on plain ASCII decimal strings. Signs, surrounding whitespace, underscores and non-ASCII digits, which Python also accepts, give `ValueError` in the model.
- `str.split()` is modelled with six separators: space, tab, line feed, carriage return, vertical tab (U+000B) and form feed (U+000C). Python also splits on U+001C–U+001F, U+0085 and the other Unicode whitespace.
- SQLite returns booleans as 0/1, and `json_object` coerces them with `bool()`. The model's records hold booleans already, so the coercion is the identity.
- Heterogeneous batches are carried as they are: the batch kind is the first record's, and the model does not check the other records' kinds. In the source, `insert_records` of the first record's class reads `a_level.grades`, `gcse.nines` or `tmua.paper1` from every record, so a page with mixed record kinds raises `AttributeError` there; the model hands such a page over as a batch.
- `type(data[0]).insert_records(data)` itself is left out. Only the `IndexError` of an empty page is modelled.
- Analysis.TMUAAnalysis.UpdateOutput: the tab's `summary_table_records` property picks the table of the selected notebook page. That page is a widget, so it is not modelled; the selected column is a `ScoreField` parameter of `TMUASummaryJson` and `SummaryTableRecords`.
- Extract.BlockTextIsWordsPlusTags: the "tags removed leaves the words" form holds only on pages where no word is spelt `Y0`, `Y1` or `Y2`, because such a word cannot be told apart from a tag once in the list. `Extract.EmittedInPlace` states the placement of every word and its tags on every page.
