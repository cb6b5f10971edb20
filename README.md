# PDF-Scraper in Dafny

PDF-Scraper turns a PDF (typically an exam paper) into structured JSON. It
reads each page's text with Apache Tika or PyMuPDF, runs Tesseract OCR on
the rendered pages, measures every page against quality gates (mean token
confidence, share of low-confidence tokens, agreement between two OCR
passes, agreement between OCR and the text layer), retries failing pages
with other preprocessing and page-segmentation presets, and picks the
better of the text layer and OCR per page. Optional providers extract
images, figures and diagrams, tables and LaTeX math; a consolidated report
keeps the high-quality pages; a question-bank builder splits the text into
numbered questions (with OR alternatives, marks, sections and options) and
can enrich them with answers from a language model. Extraction runs either
synchronously or as a background job tracked in a job store.

This project models that core as Dafny functions, methods and classes and
proves what each operation promises. One Dafny module stands for one
source file; five small modules hold shared vocabulary:

- `Wrappers`: `Option` and `Result`.
- `Text`: ASCII whitespace (the separators \x1c-\x1f included), `strip`,
  `split`, `join`, `replace`, and integer parsing (signs and underscores
  included) and printing, as the Python string methods and `int` behave on
  ASCII text.
- `Numbers`: sums and means of real sequences.
- `Sorting`: a stable insertion sort on a real-pair key, the order Python's
  `sorted` keeps.
- `Patterns`: the regular expressions of the question parser, bank and
  enricher, written out as deterministic scanners with the backtracking
  behaviour of each expression.

Foreign engines (Tika, Tesseract, PaddleOCR, PyMuPDF rendering, the VLM,
the language model, the table and math engines) are inputs: the model
receives what they return, as functions or values, and proves what the
surrounding code does with it. Code that changes state in place (the job
store, the worker, the loops that build pages, gates and questions) is
imperative Dafny proved against specification functions; code that only
computes is functions and lemmas.

`extract_pdf` is specified by `Extract.ExtractPdfSpec`, built from the
first pass, the retry loop and the final assembly. The retry loop is
written over a `Retrier`: the re-OCR of a page at an attempt number and
the score that compares two OCR results. `RetrierOf` instantiates it with
`rerun_page_ocr` over the document's renderer and `_high_confidence_score`.
The first pass takes the OCR of the rendered images as a parameter, which
`ExtractPdfSpec` instantiates with the OCR specification of app/ocr.py.
The lemmas about the document hold for every retrier and every OCR
function, and therefore for those.

## Model

| member | source | states |
|---|---|---|
| Api.ApplySafeLimits | app/api.py:71-84 | outside safe mode the DPI and page cap pass through unchanged; in safe mode the DPI never exceeds the safe DPI (it is the requested DPI or the safe DPI), a page cap is always set, a missing cap becomes the async or sync default, and a caller's cap is kept |
| Config.Truthy | app/config.py:13-14 | the three values a boolean variable is true for: 1, true, yes |
| Config.EnvBool | app/config.py:13-14 | an unset variable is false; a true variable is set and its stripped, lower-cased value is 1, true or yes |
| Config.EnvBoolExamples | app/config.py:13-14 | " Yes " and "TRUE" read as true, "on" and "0" as false |
| Config.EnvInt | app/config.py:17-21 | an unparsable value gives the default unclamped; a parsed value, or the default when unset, is clamped into [lo, hi]; when lo <= hi and no parse error occurs the result lies in [lo, hi] |
| Text.UnderscoredDigits | app/config.py:19 | digits with single underscores between them give their digits, underscores dropped; a plain run of digits gives itself |
| Text.ParseIntToString | app/config.py:19 | int(str(i)) == i, so the default, passed through str, reads back as itself |
| Text.ParseIntUnderscore | app/config.py:19 | int("1_000") is 1000 |
| Text.ParseIntSpaced | app/config.py:19 | int(" -42\n") is -42: surrounding whitespace is ignored and the sign read |
| Text.ParseIntBadUnderscores | app/config.py:19 | int() rejects "1__0", "10_" and "_1" |
| Config.Load | app/config.py:27-51 | safe mode is on exactly when PORT is set; the page caps default to 5/100 on Railway and 50/500 elsewhere; the DPI defaults to 300, the batch to 3, the file limit to 20 MiB; each parsed limit lies in its range; each of the four provider flags is exactly the truth of its own variable, so all four are off exactly when none of the variables is true; the OCR engine defaults to tesseract |
| Worker.FailureTextParts | app/worker.py:27 | the recorded error text is the exception class name, then ": ", then the message, and both parts can be read back from it |
| Worker.Run | app/worker.py:20-36 | while the extraction runs the job is processing; the outcome is exactly what extract_pdf returns or raises; afterwards the job is completed with the result or failed with the error text, nothing else in the store changes, the store stays valid, a persisting store writes the final entry; the temporary file is gone unless removing it fails |
| Worker.ProcessingThenRecorded | app/worker.py:22-27 | marking a job processing and then recording its outcome leaves the entry exactly as recording alone would, so the processing mark leaves no trace but the final time |
| Worker.Record | app/worker.py:25-27 | a successful outcome completes the job with its result, a failure fails it with the error text; an unknown job id leaves the store unchanged; a persisting store writes the new entry to disk |
| Worker.Extraction | app/worker.py:24 | the worker's outcome is exactly what extract_pdf returns or raises, and a success carries the document id and ingestion time of its environment |
| Worker.RemoveTemp | app/worker.py:30-36 | the temporary path is gone unless removal fails, in which case the files are unchanged; no other path is touched |
| Tika.StripAll | app/tika_extract.py:20 | stripping every page keeps the number of pages |
| Tika.SplitPagesPieces | app/tika_extract.py:12-20 | empty content has no pages; otherwise the pages are the form-feed pieces, stripped, minus the last piece exactly when it is blank |
| Tika.SplitPagesClean | app/tika_extract.py:12-20 | every page is stripped and contains no form feed |
| Tika.SplitPagesExact | app/tika_extract.py:12-20 | when the pieces are already stripped and the last is non-empty, the pages are the pieces and joining them with form feeds gives back the content |
| Tika.StripEach | app/tika_extract.py:20 | stripping already-stripped pieces changes nothing |
| Tika.ExtractWithTika | app/tika_extract.py:23-37 | a parser failure becomes a processing error "Tika extraction failed: …"; otherwise the text is the stripped, CRLF-normalised content and page i (numbered from 1) is the i-th split page |
| Tika.TikaPagesPresent | app/tika_extract.py:31-37 | content whose first form-feed piece is not blank yields at least one page |
| Schema.NewPage | app/schema.py:28-35 | a new page has no tokens and the given number, source and text |
| Schema.NewQualityGate | app/schema.py:53-69 | a new gate has no failed checks, no retries and every optional metric unset |
| Schema.NewExtractionResult | app/schema.py:121-135 | a new result has no quality or diagram section and the given pages, text and stats |
| Schema.NewConsolidatedReport | app/schema.py:168-179 | a new report has no high-quality pages or diagrams and every optional part unset |
| OcrRouter.TablesConsistent | app/ocr_router.py:9-64 | every profile is stored under its own id, and every alias names a profile |
| OcrRouter.ResolveOcrConfig | app/ocr_router.py:78-103 | the result is always one of the five profiles; a non-blank language that names a profile or alias selects that profile; otherwise the legacy ocr_lang alias selects it, and anything unknown falls back to English |
| OcrRouter.ResolveLanguageAlias | app/ocr_router.py:89-93 | the language " KN " resolves to Kannada whatever ocr_lang says |
| OcrRouter.ResolveUnknown | app/ocr_router.py:94-96 | an unknown language and an unknown ocr_lang fall back to English |
| OcrRouter.ResolveOcrLang | app/ocr_router.py:94-98 | without a language, ocr_lang "tam" selects Tesseract's tam |
| JobStore.StatusName | app/job_store.py:22 | every status has a non-empty name |
| JobStore.StatusNameInjective | app/job_store.py:22 | two statuses have the same name exactly when they are the same status, so filtering by name filters by status |
| JobStore.Evicted | app/job_store.py:180-190 | an entry survives eviction exactly when it is not stale (finished and untouched for over an hour), with its value unchanged |
| JobStore.EvictionKeepsUnfinished | app/job_store.py:183-188 | a pending or processing job is never evicted, however old |
| JobStore.Survivors | app/job_store.py:183-190 | the surviving ids are exactly the old ids whose entries are not stale |
| JobStore.StaleIds | app/job_store.py:183-188 | the stale list holds exactly the ids whose entries are stale |
| JobStore.MemorySummariesFacts | app/job_store.py:108-118 | a memory summary is listed exactly when its job is in memory and passes the status filter, and it carries that entry's fields |
| JobStore.DiskSummariesFacts | app/job_store.py:121-140 | a disk summary is listed exactly when the job file exists, its id was not already listed from memory, and its status passes the filter |
| JobStore.MemoryIds | app/job_store.py:108-122 | the ids listed from memory are exactly the in-memory ids passing the filter |
| JobStore.JobListNewestFirst | app/job_store.py:142 | the listing is ordered by creation time, newest first |
| JobStore.JobListMembers | app/job_store.py:105-142 | a summary is in the listing exactly when it comes from a matching in-memory job, or from a matching persisted job whose id is not listed from memory |
| JobStore.JobListFiltered | app/job_store.py:110-130 | every listed summary passes the status filter |
| JobStore.MemoryIdsDistinct | app/job_store.py:108-118 | the memory part of the listing names each job once |
| JobStore.Store.constructor | app/job_store.py:44-49 | a new store is empty and persists exactly when a non-empty directory is given |
| JobStore.Store.Len | app/job_store.py:151-153 | the length is the number of jobs in memory |
| JobStore.Store.GetJob | app/job_store.py:62-78 | an in-memory job is returned as stored; otherwise a persisted job is read from disk, and anything else is absent |
| JobStore.Store.EvictOld | app/job_store.py:180-190 | exactly the stale entries are removed; everything else, and the disk, stays |
| JobStore.Store.DeleteAll | app/job_store.py:189-190 | deleting the listed ids removes exactly them, keeping every other entry unchanged |
| JobStore.Store.Delete | app/job_store.py:190 | one entry is removed and nothing else changes |
| JobStore.Store.CreateJob | app/job_store.py:54-60 | eviction runs first, then the new id maps to a fresh pending entry; the disk is untouched |
| JobStore.Store.SetProcessing | app/job_store.py:80-85 | a known job becomes processing with a new update time; an unknown id changes nothing; nothing is persisted |
| JobStore.Store.SetCompleted | app/job_store.py:87-94 | a known job becomes completed with its result and is persisted when the store persists; an unknown id changes nothing |
| JobStore.Store.SetFailed | app/job_store.py:96-103 | a known job becomes failed with its error text and is persisted when the store persists; an unknown id changes nothing |
| JobStore.Store.SetFilename | app/job_store.py:144-149 | a known job records the filename; nothing else changes |
| JobStore.Store.PersistToDisk | app/job_store.py:169-178 | a persisting store writes the entry under its id; otherwise nothing changes |
| JobStore.Store.ListJobs | app/job_store.py:105-142 | the listing equals the specification JobList, whose membership and order are proved above |
| JobStore.CollectMemory | app/job_store.py:108-118 | the loop over the in-memory jobs collects exactly the memory summaries |
| JobStore.CollectDisk | app/job_store.py:121-140 | the loop over the job files collects exactly the disk summaries |
| JobStore.EvictedByDeletion | app/job_store.py:183-190 | deleting the stale ids one by one leaves exactly the evicted map |
| JobStore.SurvivorsOfStale | app/job_store.py:183-190 | removing the stale list from the ids leaves exactly the survivors |
| Utils.ClassName | app/utils.py:13-38 | every extraction error has a non-empty class name |
| Utils.ClassNameInjective | app/utils.py:13-38 | two errors have the same class name exactly when they are of the same kind |
| Utils.UnligatureBlank | app/utils.py:44-47 | replacing the fi/fl ligatures and line endings keeps a text blank exactly when it was blank |
| Utils.WordsEmpty | app/utils.py:50-80 | a text splits into no words exactly when it is blank |
| Utils.NormalizeAsJoin | app/utils.py:41-51 | the normalised text is the lower-cased words of the de-ligatured text joined by single spaces |
| Utils.NormalizeWords | app/utils.py:41-81 | the words of a normalised text are the lower-cased words of the de-ligatured original, and there are none exactly when the original is blank |
| Utils.UnligatureRemovesLigatures | app/utils.py:45-46 | no fi or fl ligature survives the replacement |
| Utils.NormalizeShape | app/utils.py:41-51 | a normalised text is stripped, its only whitespace is single spaces, and it holds no ligature |
| Utils.UnligatureOfNormalized | app/utils.py:44-49 | the replacements change nothing in an already normalised text |
| Utils.NormalizeIdempotent | app/utils.py:41-51 | normalising twice gives the same text as normalising once |
| Utils.EditDistanceSelf | app/utils.py:57-58 | a sequence is at distance 0 from itself |
| Utils.EditDistanceZero | app/utils.py:54-72 | the distance is 0 exactly when the sequences are equal |
| Utils.EditDistanceBounds | app/utils.py:54-72 | the distance lies between the difference of the lengths and the longer length |
| Utils.NextRow | app/utils.py:65-70 | the inner loop turns row i-1 of the dynamic-programming table into row i |
| Utils.Levenshtein | app/utils.py:54-72 | the two-row loop returns the edit distance (insertions, deletions and substitutions at cost 1) |
| Utils.WerFacts | app/utils.py:75-84 | the reference has no words exactly when it is blank; the distance is 0 exactly when the word lists agree; against a blank hypothesis it is the reference's word count |
| Utils.WordErrorRate | app/utils.py:75-84 | no rate exactly when the reference is blank; otherwise the rate is non-negative, 0 exactly when the normalised word lists agree, and 1 against a blank hypothesis |
| Utils.SimilarityRatio | app/utils.py:87-93 | no ratio exactly when the reference is blank; otherwise it is at most 1, equals 1 exactly when the normalised word lists agree, and is 0 against a blank hypothesis |
| Utils.SimilaritySelf | app/utils.py:87-93 | a non-blank text has similarity 1 with itself; a blank one has none |
| Utils.MissingBinaries | app/utils.py:105 | the missing list holds exactly the required binaries not on the PATH |
| Utils.EnsureBinaries | app/utils.py:102-109 | no error exactly when every binary is on the PATH; otherwise a missing-dependency error |
| Utils.ValidatePdfPath | app/utils.py:112-124 | the path is accepted exactly when it exists, is a file, has a .pdf suffix in any case and is readable; otherwise a validation error |
| Utils.GetPdfPageCount | app/utils.py:127-134 | a missing Pages entry counts as 0 and a readable one as its value; unreadable metadata or an unparsable count, and only those, is a processing error whose message is "Failed to read PDF metadata: " followed by pdfinfo's error or int()'s error text |
| Utils.GuardMaxPages | app/utils.py:137-145 | an error exactly when a cap is given and the page count exceeds it, and then of the max-pages kind |
| Consolidated.PreviewFacts | app/consolidated.py:64-95 | a preview is the text itself when short enough, otherwise its first n characters followed by "...", so never longer than n + 3 |
| Consolidated.ApprovedSplit | app/consolidated.py:41-51 | every gate is counted once: approved pages plus pages needing review make all pages |
| Consolidated.ApprovedMembers | app/consolidated.py:41 | a page number is listed as approved exactly when some gate with that number is approved |
| Consolidated.NeedsReviewMembers | app/consolidated.py:42-51 | an entry needs review exactly when it describes a gate that is not approved |
| Consolidated.SummaryOf | app/consolidated.py:52-60 | the summary counts all gates, its two counts add up to the total and match its two lists, and it copies the overall status and strictness |
| Consolidated.HighQualityPagesFacts | app/consolidated.py:61-74 | every result page whose number is approved is listed with its preview; every listed page is approved and comes from a result page |
| Consolidated.HighQualityDiagramsFacts | app/consolidated.py:76-89 | every listed diagram has a description and is built from a diagram read without error and with a description; every such diagram is listed; no more are listed than were read |
| Consolidated.BuildConsolidatedReport | app/consolidated.py:17-109 | the document part is copied from the result; without quality data there is no summary and no page; with it the summary counts every gate; without diagrams none is listed; a full-text preview exists exactly when the text is non-empty and is bounded by the limit plus "..." |
| Consolidated.ReportHighQualityPages | app/consolidated.py:39-74 | the report lists a result page exactly when some gate with its number is approved |
| Consolidated.ReportHighQualityDiagrams | app/consolidated.py:76-89 | when the result has diagrams, the report lists a diagram exactly when it was read without error and with a description, each with a non-empty description |
| PdfText.NativePages | app/pdf_text.py:26-32 | one page record per PDF page |
| PdfText.ExtractNativeText | app/pdf_text.py:15-37 | the loop yields page i+1 with its raw text and stripped length, and the full text joins the non-blank stripped texts with newlines |
| PdfText.NativePagesFacts | app/pdf_text.py:28-32 | page i is numbered i+1, keeps its text, and counts 0 characters exactly when the text is blank |
| PdfText.TextPartsFacts | app/pdf_text.py:33-34 | the full-text parts are non-empty and stripped, at most one per page, and none when every page is blank |
| PdfText.PageHasText | app/pdf_text.py:40-42 | a page has text exactly when its character count (0 when missing) reaches the minimum |
| PdfText.NativePageHasText | app/pdf_text.py:31-42 | a native page skips OCR exactly when its stripped text has at least 50 characters |
| PdfText.ExtractPageDimensions | app/pdf_text.py:45-55 | the map has exactly the keys 1..n and key n holds page n's width and height |
| PdfText.RectOf | app/pdf_text.py:85-113 | a box keeps its top-left corner and its width and height reach its bottom-right corner |
| PdfText.SpanEntriesWellFormed | app/pdf_text.py:106-124 | every span entry is a text entry with non-blank text and a size |
| PdfText.LineEntriesWellFormed | app/pdf_text.py:105-124 | every entry of a block's lines is well formed |
| PdfText.PageEntriesWellFormed | app/pdf_text.py:82-124 | every entry of a page is well formed: image entries carry no text, font, size or colour; text entries carry non-blank text |
| PdfText.ImageBlockEntry | app/pdf_text.py:92-102 | an image block gives exactly one image entry with the block's box |
| PdfText.FlattenSpans | app/pdf_text.py:106-124 | the loop over spans yields exactly the span entries, blank spans skipped |
| PdfText.FlattenLines | app/pdf_text.py:105-124 | the loop over lines yields exactly the lines' entries in order |
| PdfText.FlattenBlock | app/pdf_text.py:83-124 | one block yields exactly its entries |
| PdfText.FlattenBlocks | app/pdf_text.py:82-124 | the loop over blocks yields exactly the page's entries in order |
| PdfText.ExtractLayoutBlocks | app/pdf_text.py:58-129 | the result has exactly the requested page numbers 1..n, each mapped to that page's entries, all well formed |
| Ocr.Preset | app/ocr.py:47-60 | every layout preset offers at least one page-segmentation mode |
| Ocr.BuildConfig | app/ocr.py:63-67 | the configuration starts with the engine, psm and language options, and a tessdata directory is appended, quoted, exactly when a non-empty path is given |
| Ocr.OtsuUnique | app/ocr.py:70-105 | the Otsu threshold of a histogram is uniquely determined |
| Ocr.NoLaterSplit | app/ocr.py:90-92 | once the background holds every pixel, no later grey level is considered |
| Ocr.ScanConclusion | app/ocr.py:86-105 | when the scan stops, its threshold is the first grey level of strictly maximal between-class variance, or 200 when none beats zero |
| Ocr.OtsuScan | app/ocr.py:81-105 | the scanning loop returns the Otsu threshold of the histogram |
| Ocr.OtsuThreshold | app/ocr.py:70-105 | the threshold is the Otsu threshold, a grey level of the histogram or the default 200, and exactly 200 for an empty histogram |
| Ocr.SelectThreshold | app/ocr.py:132-136 | the selected threshold is the mean of the Otsu threshold and the requested one, truncated toward zero |
| Ocr.KeptTokensComplete | app/ocr.py:169-192 | every entry with non-blank text and a non-negative confidence becomes a token |
| Ocr.KeptTokensOrigin | app/ocr.py:169-192 | every token comes from such an entry |
| Ocr.KeptTokensShape | app/ocr.py:170-178 | every token's text is non-empty and stripped and its confidence is non-negative |
| Ocr.TakeEntry | app/ocr.py:170-192 | one step of the loop appends the entry's token exactly when it is kept, keeping the three lists aligned |
| Ocr.ExtractTokens | app/ocr.py:164-193 | the loop returns exactly the kept tokens, with their texts and confidences as parallel lists |
| Ocr.ScorePage | app/ocr.py:196-202 | the score counts every confidence; its mean is over the confidences of at least 70, so it is 0 when none reaches 70 and otherwise at least 70 |
| Ocr.PageTextWords | app/ocr.py:205-206 | the page text is stripped, and for token words it is the words joined by single spaces |
| Ocr.ClassifyLayout | app/ocr.py:226-230 | table exactly when the line density exceeds 0.01; text exactly when it does not and the ink density exceeds 0.10 with an edge density under 0.08; noisy otherwise |
| Ocr.LargeCells | app/ocr.py:270-274 | the kept boxes are exactly the contour boxes at least 20 wide and 20 high |
| Ocr.ExtractTableCells | app/ocr.py:264-276 | the cells are the large boxes, sorted by (y, x), a permutation of them, with boxes of equal key in their original order |
| Ocr.CellTokens | app/ocr.py:301-310 | the table tokens are the non-blank cell texts, in order, each with confidence 0 |
| Ocr.GroupStepInvariant | app/ocr.py:292-303 | one cell step keeps every finished row non-empty and loses no cell text |
| Ocr.GroupCellsInvariant | app/ocr.py:292-303 | after all cells, the finished rows plus the current row hold every non-blank cell text in order |
| Ocr.TableRowsFlatten | app/ocr.py:288-312 | the table rows are non-empty and, read in order, give exactly the non-blank cell texts |
| Ocr.GroupCell | app/ocr.py:293-303 | one iteration starts a new row when the cell lies more than its height away from the row, then adds its text |
| Ocr.OcrTableCells | app/ocr.py:279-315 | the loop returns the rows joined by tabs and newlines and one token per non-blank cell |
| Ocr.CandidatesCount | app/ocr.py:326-360 | one candidate per preprocessing strategy and psm |
| Ocr.CandidatesStrategies | app/ocr.py:350-358 | every candidate's strategy combines one of the given preprocessing strategies with one of the psms |
| Ocr.FirstMax | app/ocr.py:385-388 | the chosen candidate is not beaten by any other on (consensus, score), and every earlier candidate is strictly below it, as Python's max keeps the first maximum |
| Ocr.BestPageWinner | app/ocr.py:362-398 | no candidate gives an empty page with strategy "none"; otherwise the page takes the winning candidate's text and tokens, its consensus is the highest, and the candidate count and psm list are recorded |
| Ocr.OcrPageCandidates | app/ocr.py:362-396 | there is a pass similarity exactly when some strategy and some psm exist, and the count recorded is their product |
| Ocr.OcrPageStrategy | app/ocr.py:389-397 | the page's strategy is that of one actual (preprocess, psm) pair, with the psm list and count added |
| Ocr.ConsensusAtMostOne | app/ocr.py:373-383 | a candidate's consensus, the mean similarity to the others or 1 with none, is at most 1 |
| Ocr.PassSimilarityAtMostOne | app/ocr.py:392 | the pass similarity of a page is at most 1 |
| Ocr.MakeCandidate | app/ocr.py:337-360 | one candidate is the tokens, text and score of one Tesseract run under its strategy |
| Ocr.BuildCandidates | app/ocr.py:326-360 | the nested loops produce exactly the candidate list, strategy-major |
| Ocr.BuildRow | app/ocr.py:336-360 | the inner loop produces one candidate per psm |
| Ocr.CompareWith | app/ocr.py:375-380 | comparing with one more candidate adds its ratio when it is defined and skips the candidate itself |
| Ocr.ConsensusOf | app/ocr.py:374-383 | the inner loop computes the candidate's consensus similarity |
| Ocr.SetConsensus | app/ocr.py:373-383 | the loop gives every candidate its consensus and changes nothing else |
| Ocr.OcrPageEnsemble | app/ocr.py:318-398 | the page returned equals the ensemble specification, whose properties are proved above |
| Ocr.SelectByName | app/ocr.py:468-472 | the selected strategies are exactly those whose name the preset lists |
| Ocr.SelectedPreprocess | app/ocr.py:468-474 | at least one preprocessing strategy is always selected |
| Ocr.ProcessSpec | app/ocr.py:459-522 | the page records its layout; a table page records its cell count, and a table with cells has no pass similarity and only zero-confidence tokens |
| Ocr.ProcessOnePage | app/ocr.py:459-522 | the method computes exactly the page specification |
| Ocr.ExtractWithOcr | app/ocr.py:410-456 | a rendering failure becomes "OCR rendering failed: …"; otherwise page i is the OCR of image i and the full text joins the non-empty page texts with newlines, stripped |
| Ocr.PagesSpecAt | app/ocr.py:440-443 | page i of the result is the OCR of image i |
| Ocr.OcrPages | app/ocr.py:439-453 | the page loop returns the OCR of each image in order |
| Ocr.DefaultOcrWorkers | app/ocr.py:402-407 | the worker count lies in [1, 32]; it is 4 when unset or unparsable, the given value when it is in range, 32 above the range and 1 below it |
| Ocr.RetryAlternates | app/ocr.py:534-539 | retry threshold, orientation detection and DPI depend only on the parity of the attempt, and consecutive attempts differ in all three |
| Ocr.RetryNamesDistinct | app/ocr.py:542 | distinct attempts get distinct strategy names |
| Ocr.RerunSpec | app/ocr.py:525-570 | a rendering failure propagates; no image is a processing error; otherwise the page records its layout, the retry strategy's name, threshold, orientation flag, DPI, attempt number and the layout's psm list |
| Ocr.RerunPageOcr | app/ocr.py:525-570 | the method computes exactly the rerun specification |
| Extract.RelaxStep | app/extract.py:204-212 | one merge step never tightens a threshold, is at least as lenient as the override for its key, and takes either the old value or the override |
| Extract.MergedMostLenient | app/extract.py:201-226 | after merging, each threshold is the most lenient of its base value and the overrides for its key, and equals one of them |
| Extract.MergedRelaxes | app/extract.py:201-212 | merging overrides can only relax: no threshold becomes stricter |
| Extract.RelaxesTransitive | app/extract.py:201-226 | relaxing twice is a relaxation of the original thresholds |
| Extract.MergeOverrides | app/extract.py:204-212 | the merge loop computes the merged thresholds, which relax the base ones |
| Extract.GateThresholdsRelax | app/extract.py:181-226 | the thresholds a page is judged by, after the layout and diagram-heavy merges, are nowhere stricter than the base thresholds |
| Extract.GateThresholdsText | app/extract.py:201-221 | a page without layout is judged exactly as a text page, and the diagram-heavy relaxation never applies to it |
| Extract.TableNoisyTikaMinimum | app/extract.py:59-71 | table and noisy pages have a Tika-similarity minimum of 0, so they never fail that gate |
| Extract.AvgConfidence | app/extract.py:149-150 | the mean is absent exactly when no confidence reaches 92, and otherwise at least 92 |
| Extract.LowConfRatio | app/extract.py:151-155 | the ratio is absent exactly when there is no token, lies in [0, 1], and is 0 exactly when every confidence reaches 92 |
| Extract.TikaSimilarity | app/extract.py:159-161 | a similarity exists only when both texts are non-empty and the Tika text is not blank, and it is at most 1 |
| Extract.Decide | app/extract.py:169-179 | decision B exactly when the accuracy exists and reaches the threshold; Tika is selected exactly under decision A with non-blank Tika text |
| Extract.FailedGatesMeaning | app/extract.py:233-246 | each check fails exactly under its condition: missing or low mean confidence, missing or high low-confidence ratio, missing or low pass similarity, and a low Tika similarity when that gate is neither skipped nor disabled |
| Extract.FailedGatesMonotone | app/extract.py:233-246 | relaxing the thresholds can only remove failed checks |
| Extract.QualityGateFacts | app/extract.py:139-268 | a page is approved exactly when no check failed; its number, retries and strategy are copied; decision B exactly when the accuracy reaches the decision threshold, and then OCR is selected |
| Extract.QualityGateAccuracy | app/extract.py:159-167 | the accuracy is the Tika similarity when there is one, else the mean confidence over 100; without OCR the three OCR checks fail, in order |
| Extract.QualityGateWithinBase | app/extract.py:181-246 | every check a page fails would also fail under the base thresholds |
| Extract.PageQuality | app/extract.py:139-268 | the method computes exactly the page's gate specification, whose properties are proved above |
| Extract.QualitySummaryOf | app/extract.py:271-291 | the summary is approved exactly when every page is, keeps the pages and strictness, and reports the base thresholds of the quality target |
| Extract.PageForFacts | app/extract.py:88-125 | a page keeps its number; a page outside the OCR set, or one for which Tika was selected or preferred with non-blank text, uses the Tika text without tokens; otherwise it uses the OCR text and tokens |
| Extract.BuildPages | app/extract.py:88-125 | the loop builds one page per page number from 1 to the page count, each as specified |
| Extract.BuildPage | app/extract.py:97-124 | one iteration builds the page the specification PageFor gives for that number, whose facts PageForFacts states |
| Text.NonEmptyOnly | app/extract.py:388 | the full-text parts are exactly the non-empty texts, no more of them than pages, none empty; the OCR full text (app/ocr.py:455) uses the same filter |
| Extract.StatsFacts | app/extract.py:128-136 | the token total counts every token; the mean confidence is absent exactly when no token reaches 92 and otherwise is the mean of those that do |
| Extract.TokenCountConfidences | app/extract.py:129 | the token total equals the number of token confidences |
| Extract.AddHighConfidences | app/extract.py:132-134 | the inner loop appends the page's confidences of at least 92 |
| Extract.CalculateStats | app/extract.py:128-136 | the loops compute exactly the statistics specification |
| Extract.TikaPageMapNumbered | app/extract.py:342 | for pages numbered 1..n the map has exactly those keys, each with its page's text |
| Extract.ComputeOcrRequired | app/extract.py:343-352 | the loop yields every page when Tika failed or OCR is forced, and otherwise the pages whose stripped Tika text has fewer than 50 characters |
| Extract.OcrPageMap | app/extract.py:366-368 | the OCR pages are keyed 1..n in order |
| Extract.FailingPagesFacts | app/extract.py:419-421 | the failing pages are increasing, and a page fails exactly when its gate is not approved and it needed OCR |
| Extract.AssessNext | app/extract.py:410-421 | one iteration appends the page's gate and records it as failing when it should |
| Extract.AssessPages | app/extract.py:408-421 | the loop computes every page's gate and exactly the failing pages |
| Extract.HighConfidenceScore | app/extract.py:436-444 | the retry score is 0 exactly when no token reaches 92, and otherwise at least 92 |
| Extract.ReplacedFacts | app/extract.py:446-454 | replacing a page's OCR leaves every other page untouched; the page's score afterwards is at least its old score and at least the retry's score; the page holds a result afterwards when it had one or the retry scores at least what no tokens score |
| Extract.RetryPage | app/extract.py:427-456 | one retried page: an OCR error of the re-run is passed on; otherwise the re-run replaces the stored result when its score is at least as good, and the page's attempt count grows by one |
| Extract.AttemptsCountedStep | app/extract.py:455-456 | counting one more page, not counted before in the round, gives it one more attempt than before the round and leaves every other page's count as the round so far left it |
| Extract.OcrRetriedStep | app/extract.py:446-454 | re-OCRing one more page, not retried before in the round, leaves it with the better of its stored result and its re-OCR and every other page as the round so far left it |
| Extract.RoundSpecErrStays | app/extract.py:426-433 | once a page of a round fails to re-OCR, the round's outcome is that error whatever the later pages would give |
| Extract.RoundSpecCounts | app/extract.py:426-456 | a round over increasing pages that succeeds counts one more attempt for exactly its pages and no other |
| Extract.RoundSpecRetried | app/extract.py:426-454 | a round over increasing pages that succeeds leaves each of its pages with the better of its stored result and its re-OCR, and every other page's OCR unchanged |
| Extract.RoundSpecNext | app/extract.py:426-456 | the round over the first k+1 failing pages is the round over the first k, followed by the retry of page k+1 on its result |
| Extract.RetryNext | app/extract.py:426-456 | one iteration of the inner loop computes the round over one more failing page |
| Extract.RetryRound | app/extract.py:426-456 | the inner loop computes the round: on success every failing page has exactly one more attempt and the better of its two OCR results, and every other page keeps its count and its OCR |
| Extract.FailuresInWithin | app/extract.py:408-421 | the failing pages of any state of the loop are listed in increasing order and are required pages within 1..page count |
| Extract.RetrySpecAttempts | app/extract.py:405-456 | from round `attempt` on, a successful retry loop adds at most one attempt per remaining round to any page |
| Extract.RetrySpecCounted | app/extract.py:405-456 | a successful retry loop counts attempts only for pages already counted or required pages within 1..page count |
| Extract.RetrySpecKeepsOthers | app/extract.py:405-456 | a successful retry loop never changes the OCR of a page that does not need OCR |
| Extract.RetryAttempt | app/extract.py:407-456 | one pass of the outer loop: the failing pages are those of the current gates; with none the state is returned unchanged, otherwise a round over them runs |
| Extract.RetryLoop | app/extract.py:405-456 | the outer loop computes the retry specification, runs at most quality_retries rounds, and stopping before the last round means no required page fails its gate |
| Extract.RetryStageFacts | app/extract.py:405-456 | after successful retries no page has more attempts than quality_retries (none when it is not positive), only required pages within 1..page count are counted, and a page that did not need OCR keeps its first-pass OCR |
| Extract.RetryStage | app/extract.py:405-456 | without required pages nothing is retried; otherwise the retry loop over the first-pass OCR pages runs, as the retry specification says |
| Extract.FirstPassSpec | app/extract.py:314-374 | the first pass succeeds exactly when, if OCR is forced or some page needs it, the OCR binaries exist and the rendering succeeds, when Tika succeeded if no page needs OCR, and when OCR returned pages if some page needs it; forced OCR raises missing binaries and rendering errors as they are; unforced, a rendering error becomes "OCR rendering failed"; the required pages are those that need OCR, and the OCR pages are keyed from page 1 |
| Extract.FirstPassOf | app/extract.py:314-374 | the method computes the first-pass specification with the OCR of every rendered image |
| Extract.FirstPassEmpty | app/extract.py:376-403 | the check reports empty exactly when the first-pass text is empty: the joined page texts when OCR ran, else Tika's stripped text |
| Extract.FinalPages | app/extract.py:475-495 | the final pages are built with the gates' selected sources, and the full text is the joined page texts when OCR ran, else Tika's stripped text |
| Extract.GateAtFacts | app/extract.py:410-418 | the gate of a page carries that page's number and its retry count |
| Extract.GatesOfFacts | app/extract.py:458-469 | the final gates are one per page number, in order, each carrying that page's retry count |
| Extract.GatesOfRetries | app/extract.py:458-469 | when every retry count is within a bound and only required pages were retried, every gate's retry count is within the bound and zero for a page that did not need OCR |
| Extract.FinalPagesFacts | app/extract.py:475-495 | the final pages are one per page number, in order, and a page that needed no OCR is a Tika page with Tika's text |
| Extract.Assemble | app/extract.py:458-524 | the end of extract_pdf computes the assembled result from the final OCR pages and the gates of the final retry counts |
| Extract.AssembleFields | app/extract.py:497-524 | the assembled result carries the job's id and time and the file's base name; its metadata says whether OCR ran; its quality lists the final gates; its stats are those of its pages; without OCR its full text is Tika's stripped text |
| Extract.AssemblePages | app/extract.py:470-495 | the assembled pages are one per page number, in order, and a page that needed no OCR is a Tika page with Tika's text |
| Extract.AssembleRetries | app/extract.py:405-470 | after successful retries every final gate's retry count is at most quality_retries, and zero for a page that did not need OCR |
| Extract.ExtractDocument | app/extract.py:314-524 | the method computes the document specification: first pass, empty-content check, retries, assembly |
| Extract.DocumentErrors | app/extract.py:319-456 | forced OCR without the binaries raises the missing-binary error; an empty OCR result when a page needs OCR raises "OCR did not return any pages."; an empty first-pass text raises EmptyContentError; an error of the retries is raised unchanged; on the Tika-only path the extraction succeeds exactly when Tika succeeded with a non-blank text |
| Extract.DocumentOk | app/extract.py:314-524 | a success went through a successful first pass with the pages that need OCR, a non-empty first-pass text and successful retries, and is the result assembled from the final OCR pages and gates |
| Extract.DocumentFields | app/extract.py:497-524 | a success carries the job's id and time and the file's base name; its metadata says whether OCR ran; its stats are those of its pages |
| Extract.DocumentPages | app/extract.py:475-495 | a success has one page per page number, in order, and a page that needed no OCR is a Tika page with Tika's text |
| Extract.DocumentTikaText | app/extract.py:389-403 | on the Tika-only path a success has Tika's stripped text as its full text, and that text is not blank |
| Extract.DocumentGates | app/extract.py:458-470 | a success has a quality summary with one gate per page number, in order |
| Extract.DocumentRetries | app/extract.py:405-470 | a success has retry counts of at most quality_retries, and zero for a page that did not need OCR |
| Extract.ExtractPdf | app/extract.py:294-524 | the method computes the extraction specification: preflight, Tika, then the document with the retries of rerun_page_ocr |
| Extract.ExtractPdfErrors | app/extract.py:308-403 | a failed preflight check is raised as it is; forced OCR without the binaries raises the missing-binary error; on the Tika-only path the extraction succeeds exactly when Tika succeeded with a non-blank text |
| Extract.ExtractPdfResult | app/extract.py:308-524 | a success passed the preflight with a page count within the cap and carries the job's id and time, the file's base name and one page per page number, in order |
| Extract.ExtractPdfGates | app/extract.py:405-524 | a success has one quality gate per page number, in order, each with at most quality_retries retries |
| Extract.SelectedSourcesNumbered | app/extract.py:471-473 | each page's selected source is read from its own gate, and pages outside 1..n have none |
| Extract.Basename | app/extract.py:511 | the file name is the part of the path after the last slash |
| Extract.Preflight | app/extract.py:308-312 | the checks pass exactly when the path is valid, pdftoppm exists, the page count is readable and within the cap; the first failing check's error is raised |
| Extract.OcrStage | app/extract.py:354-368 | no OCR without required pages; otherwise missing binaries or a rendering failure become the matching errors, and success gives the OCR pages of the images |
| Extract.MetadataOf | app/extract.py:386-399 | the method is tika exactly without OCR and ocr exactly when Tika failed and OCR ran; the DPI is recorded exactly when OCR ran |
| Extract.FinalQuality | app/extract.py:458-470 | the final quality is the summary of every page's gate after the retries |
| Reconstruct.HexValue | app/providers/reconstruct.py:31 | a hexadecimal digit's value lies in [0, 16) |
| Reconstruct.CssColor | app/providers/reconstruct.py:24-31 | a missing or zero colour is #000; any other colour is # followed by six hex digits |
| Reconstruct.HexDigitValue | app/providers/reconstruct.py:31 | reading back a printed hex digit gives its value |
| Reconstruct.Hex2Value | app/providers/reconstruct.py:31 | reading back a two-digit byte gives the byte |
| Reconstruct.CssColorValue | app/providers/reconstruct.py:24-31 | the six hex digits of a non-zero colour read back as its low 24 bits, so the red, green and blue bytes are kept in order |
| Reconstruct.EscapeNoMarkup | app/providers/reconstruct.py:100-157 | escaped text contains no <, >, " or ' |
| Reconstruct.UnescapeChar | app/providers/reconstruct.py:100 | unescaping the escape of one character gives that character back, whatever follows |
| Reconstruct.EscapeRoundTrip | app/providers/reconstruct.py:100-157 | unescaping escaped text gives the original text back, so escaping loses nothing |
| Reconstruct.Container | app/providers/reconstruct.py:75-82 | with both page dimensions, the width is the scaled width capped at the maximum and the height keeps the page's aspect ratio; otherwise the container is the maximum width by 1100 at the requested scale |
| Reconstruct.PageElements | app/providers/reconstruct.py:84-139 | a page shows its drawn blocks and embedded images; only when there are none does its non-empty text appear, escaped, as a fallback |
| Reconstruct.Sections | app/providers/reconstruct.py:70-148 | one section per page, in order, each with the page's container and elements |
| Reconstruct.ReconstructHtml | app/providers/reconstruct.py:43-254 | the document has one section per page with that page's number, counts the pages, and its title contains no markup character |
| Reconstruct.BlockElementsMembers | app/providers/reconstruct.py:88-115 | an element comes from the layout blocks exactly when some block with a bbox and a text or image type draws it |
| Reconstruct.ImageElementsMembers | app/providers/reconstruct.py:118-132 | an image is embedded exactly when it has base64 data and a bbox |
| Reconstruct.BlockElementsEscaped | app/providers/reconstruct.py:99-109 | every text a block draws is escaped |
| Reconstruct.ImageElementsNoText | app/providers/reconstruct.py:128-132 | embedded images carry no text |
| Reconstruct.PageElementsFacts | app/providers/reconstruct.py:84-139 | everything a page shows is escaped, and the fallback text appears exactly when nothing is drawn and the page has text |
| MathOcr.LetterRun | app/providers/math_ocr.py:172 | the run of ASCII letters after a backslash lies within the text |
| MathOcr.JoinSingleSpaced | app/providers/math_ocr.py:175 | words joined by single spaces form single-spaced text |
| MathOcr.SingleSpacedJoin | app/providers/math_ocr.py:175 | collapsing the whitespace of single-spaced text changes nothing |
| MathOcr.ApplyReplacementsAbsent | app/providers/math_ocr.py:144-169 | text without a backslash is unchanged by the command replacements |
| MathOcr.RemoveCommandsAbsent | app/providers/math_ocr.py:172 | text without a backslash is unchanged by the command removal |
| MathOcr.LatexToTextEmpty | app/providers/math_ocr.py:140-141 | empty LaTeX gives empty text |
| MathOcr.LatexToTextShape | app/providers/math_ocr.py:138-176 | the plain text contains no brace and is single-spaced: stripped, with no two whitespace characters in a row and only spaces |
| MathOcr.LatexToTextPlain | app/providers/math_ocr.py:138-176 | text with no backslash or brace that is already single-spaced passes through unchanged |
| MathOcr.RecognizeEquation | app/providers/math_ocr.py:53-79 | without pix2tex the "pix2tex not installed" error; a successful model gives its LaTeX and the plain text of it; a failing model gives its message; LaTeX is absent exactly when there is an error |
| MathOcr.RecognizeEquations | app/providers/math_ocr.py:106-107 | without pix2tex no equation is recognised |
| MathOcr.EquationsMembers | app/providers/math_ocr.py:112-135 | an entry comes from an image with non-zero height, an aspect ratio within the bounds and base64 data that decoded, and every such image gives one, carrying its bbox |
| MathOcr.EquationsLength | app/providers/math_ocr.py:112-135 | at most one entry per image |
| ImageExtract.FindPlacement | app/providers/image_extract.py:113-117 | a placement is found exactly when some placed image on the page carries the xref, and then it is that image's rectangle |
| ImageExtract.EntryOf | app/providers/image_extract.py:95-136 | a kept image carries its xref, is at least 20 pixels each way, is placed on a rectangle of at least the minimum area (or has none), keeps its bytes, and has base64 data exactly when it was asked for |
| ImageExtract.ScanPage | app/providers/image_extract.py:87-136 | the loop over one page's image list computes the page scan: the xrefs seen so far and the page's entries |
| ImageExtract.ExtractPageImages | app/providers/image_extract.py:50-142 | the loop over the pages computes the document scan's page map |
| ImageExtract.PageScanUnique | app/providers/image_extract.py:79-122 | the seen set only grows and holds every kept xref; no kept xref was seen before the page; no two entries of a page share an xref |
| ImageExtract.PageScanKept | app/providers/image_extract.py:95-136 | every entry of a page comes from the page's image list and passes the size, area and base64 filters |
| ImageExtract.AddPagePreservesNoDuplicates | app/providers/image_extract.py:92-138 | adding a page whose xrefs were all unseen keeps every xref in at most one entry of the whole document |
| ImageExtract.DocScanKeys | app/providers/image_extract.py:82-138 | the result has exactly the requested page numbers 1..n as keys (every page when no list is given), empty pages included |
| ImageExtract.DocScanUnique | app/providers/image_extract.py:79-122 | an image shared between pages is reported once in the whole document |
| ImageExtract.DocScanKept | app/providers/image_extract.py:87-136 | every entry on a page comes from that page's image list and passes the filters |
| ImageExtract.SeenSkipped | app/providers/image_extract.py:92-93 | an xref already seen gives no entry and leaves the seen set unchanged |
| ImageExtract.SplitAtSeparator | app/providers/image_extract.py:169-181 | a number followed by a non-digit separator is read back unambiguously |
| ImageExtract.IntToStringChars | app/providers/image_extract.py:169-181 | rendered numbers use only digits and the minus sign |
| ImageExtract.IntToStringInjective | app/providers/image_extract.py:169-181 | distinct numbers render differently |
| ImageExtract.DropPrefix | app/providers/image_extract.py:169-181 | a common directory prefix can be cancelled |
| ImageExtract.ImageNameInjective | app/providers/image_extract.py:181 | file names img_{idx}.{ext} of different indices differ, whatever their extensions |
| ImageExtract.PagePartInjective | app/providers/image_extract.py:169-181 | page directory plus file name determines the page and index |
| ImageExtract.ImagePathInjective | app/providers/image_extract.py:166-183 | distinct (page, index) pairs are written to distinct paths, so no file overwrites another |
| ImageExtract.SaveOne | app/providers/image_extract.py:181-185 | writing one image's bytes keeps every recorded path pointing at its own image's bytes |
| ImageExtract.SavePage | app/providers/image_extract.py:169-185 | one page adds exactly its images that have bytes, each under its own index, and every recorded path holds that image's bytes |
| ImageExtract.HasMinimum | app/providers/image_extract.py:168 | a non-empty set of page numbers has a least element, so pages can be written in ascending order |
| ImageExtract.SaveImagesToDisk | app/providers/image_extract.py:145-188 | the path map has exactly the (page, index) pairs whose image has bytes, and each path holds that image's bytes |
| ImageExtract.StripEntries | app/providers/image_extract.py:191-198 | each entry is kept in place with its raw bytes dropped |
| ImageExtract.StripRawBytes | app/providers/image_extract.py:191-198 | same pages, same number of entries, every field but the raw bytes unchanged |
| FigureExtract.LastPage | app/figure_extract.py:44-45 | never past the page count; a missing or zero page limit scans every page; otherwise the limit caps the scan and is reached when the document is long enough |
| FigureExtract.ExtOf | app/figure_extract.py:69 | the extension is lower-case, and "png" when the extractor gives none or an empty one |
| FigureExtract.ScannedPages | app/figure_extract.py:45-47 | the number of pages scanned never exceeds the page count |
| FigureExtract.ScanPage | app/figure_extract.py:49-88 | the loop over one page's image list computes the page scan |
| FigureExtract.ExtractFigures | app/figure_extract.py:16-91 | fails, with a validation error, exactly when the path does not validate; otherwise the figures of pages 1..last |
| FigureExtract.StepFacts | app/figure_extract.py:51-88 | one image marks at most its own xref seen; a figure it gives is new, on the current page and passes the placement, area, extraction and decoding filters |
| FigureExtract.AppendStep | app/figure_extract.py:50-88 | one step keeps a page's figures kept, new, distinct and on the page |
| FigureExtract.PageScanFacts | app/figure_extract.py:49-88 | a page's figures are kept, were unseen before the page, are pairwise distinct in xref and all carry the page number |
| FigureExtract.AppendKept | app/figure_extract.py:82-88 | appending kept figures keeps the list kept |
| FigureExtract.AppendUnique | app/figure_extract.py:43-67 | appending figures whose xrefs were unseen keeps the xrefs distinct |
| FigureExtract.AppendOrdered | app/figure_extract.py:47-88 | appending a later page's figures keeps the list in page order |
| FigureExtract.DocScanFacts | app/figure_extract.py:42-88 | the figures of pages 1..n are kept, in page order, within those pages, with distinct xrefs |
| FigureExtract.FiguresFacts | app/figure_extract.py:42-89 | the result is kept, within the scanned pages, in page order, and never reports an image twice |
| FigureExtract.SeenSkipped | app/figure_extract.py:52-53 | an xref already seen gives no figure and leaves the seen set unchanged |
| DiagramPipeline.DefaultVlmWorkers | app/diagram_pipeline.py:27-32 | between 1 and 20; 5 when VLM_WORKERS is unset or not an integer; otherwise the setting clamped to 1..20 |
| DiagramPipeline.InfoOf | app/diagram_pipeline.py:46-51 | the figure's page, box and area, with no image path |
| DiagramPipeline.StructureOf | app/diagram_pipeline.py:67-75 | a structure is kept only when the structure answer, stripped, starts with "{" and parsed as an object |
| DiagramPipeline.ProcessOneFigure | app/diagram_pipeline.py:35-90 | each error case ("VLM disabled", "No image", not configured, describe failed) with every other field empty; a description only from a configured VLM, with that VLM's chart data and no error |
| DiagramPipeline.ReadingOutcome | app/diagram_pipeline.py:53-89 | never both an error and a description; neither exactly when the VLM is wanted, the image is there and the VLM module is missing; structure, kind and chart data only alongside a description |
| DiagramPipeline.HighQualityNeedsVlm | app/diagram_pipeline.py:59-76 | a reading the consolidated report counts as high quality came from an enabled, configured VLM that gave a non-empty description |
| DiagramPipeline.ProcessAll | app/diagram_pipeline.py:128-139 | one reading per figure, in figure order, each that of the figure on its own (the thread pool keeps the order) |
| DiagramPipeline.WorkerCount | app/diagram_pipeline.py:125-126 | never more workers than figures, and at least one by default when there is a figure |
| DiagramPipeline.MinAreaOf | app/diagram_pipeline.py:113 | a missing or zero minimum area falls back to 1000 |
| DiagramPipeline.RunDiagramPipeline | app/diagram_pipeline.py:93-147 | fails exactly when the path does not validate; otherwise carries the given id, name and time, and one reading per extracted figure, in order, with the total equal to the number of readings |
| DiagramPipeline.PipelineFacts | app/diagram_pipeline.py:110-147 | every diagram is of a figure on a page of the document, in page order, and with the VLM off every reading says "VLM disabled" |
| OcrPaddle.Trunc | app/providers/ocr_paddle.py:115-118 | Python's int() on a float: the integer part, rounded toward zero for negative values too |
| OcrPaddle.MinOf | app/providers/ocr_paddle.py:109-110 | an element of the list no larger than any other |
| OcrPaddle.MaxOf | app/providers/ocr_paddle.py:109-110 | an element of the list no smaller than any other |
| OcrPaddle.Xs | app/providers/ocr_paddle.py:107 | the x coordinates of the polygon, point by point |
| OcrPaddle.Ys | app/providers/ocr_paddle.py:108 | the y coordinates of the polygon, point by point |
| OcrPaddle.BBoxOf | app/providers/ocr_paddle.py:106-119 | an axis-aligned box of non-negative size that contains every point of the polygon, up to the truncation to integers |
| OcrPaddle.TokenOf | app/providers/ocr_paddle.py:103-121 | the token carries the line's text and its confidence scaled from 0-1 to 0-100 |
| OcrPaddle.KeptLines | app/providers/ocr_paddle.py:94-101 | only lines with both a polygon and a (text, confidence) pair are kept, in order |
| OcrPaddle.ConvertedFacts | app/providers/ocr_paddle.py:93-122 | the conversion fails exactly when some kept line has an empty polygon (min() of an empty list raises); otherwise one token per kept line, in order |
| OcrPaddle.ConvertedStep | app/providers/ocr_paddle.py:94-122 | one more line keeps the conversion's meaning |
| OcrPaddle.EmptyBoxStays | app/providers/ocr_paddle.py:109 | once a line with an empty polygon was seen the conversion stays failed |
| OcrPaddle.TokensStep | app/providers/ocr_paddle.py:112-122 | a kept line with points adds exactly its own token |
| OcrPaddle.OcrPage | app/providers/ocr_paddle.py:60-131 | the loop computes the page result: without PaddleOCR the empty result; a failure when the engine raises; otherwise the tokens and their texts joined by newlines, with similarity 1.0 and the "text" layout |
| OcrPaddle.AddLine | app/providers/ocr_paddle.py:94-122 | a skipped line changes nothing; a kept line appends its token and its text; a kept line with no points fails |
| OcrPaddle.ConvertedNext | app/providers/ocr_paddle.py:94-122 | the conversion of one more line, in terms of the conversion so far |
| OcrPaddle.NoneStays | app/providers/ocr_paddle.py:109 | a failure part-way makes the whole page fail |
| OcrPaddle.PageResultText | app/providers/ocr_paddle.py:124-131 | a successful page has similarity 1.0 and the "text" layout, and when no token contains a newline its text splits back into exactly the token texts |
| OcrPaddle.EntryOf | app/providers/ocr_paddle.py:156-169 | the entry carries its page number, and a page whose OCR raised gets the empty result |
| OcrPaddle.OcrPages | app/providers/ocr_paddle.py:134-170 | exactly the pages start..start+n-1, each with the entry of its own image and its own page number |
| TableExtract.IntStrings | app/providers/table_extract.py:67 | each page number rendered in decimal, in order |
| TableExtract.NoCommaInNumber | app/providers/table_extract.py:67 | a rendered page number never contains the comma separator |
| TableExtract.PagesArgRoundTrip | app/providers/table_extract.py:67 | the comma-joined pages argument splits back into exactly the requested page numbers, in order |
| TableExtract.TablesRead | app/providers/table_extract.py:69-90 | the first read's tables when it succeeds; after a failed lattice read, the stream read's outcome; after a failed read of any other flavor, nothing |
| TableExtract.StripCells | app/providers/table_extract.py:109-126 | every cell stripped, in place |
| TableExtract.CsvLines | app/providers/table_extract.py:107-109 | one line per row, its stripped cells joined by " \| " |
| TableExtract.RectOf | app/providers/table_extract.py:113-122 | the rectangle spans from the first corner to the second |
| TableExtract.TableOf | app/providers/table_extract.py:102-132 | headers are the stripped first row, rows the stripped remaining rows, row count all rows, column count the headers; accuracy and box carried over |
| TableExtract.CsvTextLines | app/providers/table_extract.py:106-110 | when no cell holds a newline the CSV text splits into one line per row: the header line, then each data row |
| TableExtract.GroupedFacts | app/providers/table_extract.py:92-134 | a page is a key exactly when it has a non-empty table, and its list is that page's non-empty tables in order |
| TableExtract.OnPageNonEmpty | app/providers/table_extract.py:99-131 | an empty frame is never listed, so every listed table has a row and a column |
| TableExtract.ExtractTables | app/providers/table_extract.py:40-136 | empty when Camelot is missing or every read raised; otherwise the read tables grouped by page |
| Patterns.SkipSpace | app/question_parser.py:27-33 | the end of the run of whitespace from p: every character before it is skipped and the one at it is not whitespace |
| Patterns.DigitsEnd | app/question_parser.py:33-42 | the end of the run of digits from p |
| Patterns.DigitsEndAt | app/question_parser.py:33-42 | a run of n digits followed by a non-digit ends exactly n characters on |
| Patterns.SkipSpaceAt | app/question_parser.py:27-33 | a run of n whitespace characters followed by a non-space is skipped exactly |
| Patterns.NumeralEnd | app/question_parser.py:27 | the end of the run of I, V and X from p |
| Patterns.NumeralEndAt | app/question_parser.py:27 | a run of n numeral letters followed by another character ends exactly n characters on |
| Patterns.SectionAt | app/question_parser.py:26-88 | a header match yields one of the ten numerals I..X and ends past its start, within the text |
| Patterns.HeadersFrom | app/question_bank.py:75-80 | finditer of the header pattern: every match starts at a line start, names a known numeral, and matches come in order without overlapping |
| Patterns.QuestionNumber | app/question_parser.py:32-35 | a question number has at most three digits, so it is below 1000 |
| Patterns.DigitsBelow | app/question_parser.py:33 | n digits make a number below 10^n |
| Patterns.DigitsBound | app/question_parser.py:33 | one to three digits make a number below 1000 |
| Patterns.ShortNumber | app/question_parser.py:33 | a number below 1000 is written with at most three digits |
| Patterns.QuestionNumberParts | app/question_parser.py:32-35 | a line that opens with one to three digits, a period and a space is a question line with that number |
| Patterns.QuestionNumberOf | app/question_parser.py:32-35 | "n. rest" is recognised as question n for every n below 1000 |
| Patterns.ValueOfNumber | app/question_parser.py:144 | reading back a written number gives the number |
| Patterns.MarksFactors | app/question_parser.py:41-43 | the first two numbers of a marks header are runs of digits, in order, separated by whitespace and an optional x |
| Patterns.MarksTotal | app/question_parser.py:41-43 | the total after the equals sign is a run of digits |
| Patterns.MarksAt | app/question_parser.py:41-43 | a marks header matched at p ends past p, within the text |
| Patterns.MarksFrom | app/question_bank.py:87 | the position found is one where a marks header matches |
| Patterns.FactorsParts | app/question_bank.py:69-72 | "a x b" is read as the factors a and b |
| Patterns.TotalParts | app/question_bank.py:69-72 | " = c" at the end of the text is read as the total c |
| Patterns.MarksAtOf | app/question_parser.py:41-43 | the marks match's numbers are the values of its three runs of digits |
| Patterns.MarksAtParts | app/question_bank.py:69-72 | "a x b = c" is read as count a, marks b and total c, ending at the end of the text |
| Patterns.WordsAt | app/question_parser.py:46-55 | a phrase match ends past its start, within the text |
| Patterns.MentionsLower | app/question_parser.py:46-55 | the case-insensitive search gives the same answer on the lower-cased text |
| Patterns.AsShownAt | app/question_parser.py:47 | "as shown" written at p matches the phrase there |
| Patterns.LowerKeeps | app/question_parser.py:46-49 | lower-casing the text keeps a slice that is already lower-case |
| Patterns.AsShownIsReference | app/question_parser.py:46-49 | any text that contains "as shown" refers to a figure |
| Patterns.FirstStop | app/question_enricher.py:239-242 | where the lazy option text stops: the first position at which the lookahead (end of text or another label) holds |
| Patterns.UpperChar | app/question_enricher.py:247 | an option label A-D in either case becomes upper-case |
| Patterns.ChoicesFrom | app/question_enricher.py:235-249 | every option found has a label A-D and a stripped text |
| Patterns.DigitsStart | app/question_enricher.py:256 | the start of the final run of digits, which is preceded by a non-digit or the start of the text |
| Patterns.DigitsStartAt | app/question_enricher.py:256 | a maximal run of digits ending at q starts where it does |
| Patterns.OptDot | app/question_bank.py:38-55 | an optional period is skipped when present |
| Patterns.TitleAt | app/question_bank.py:37-41 | a title match ends past its start, within the text |
| Patterns.LineEnd | app/question_bank.py:38 | where [^\n]* stops: the next newline or the end of the text |
| Patterns.TitleFrom | app/question_bank.py:37-41 | the position found is one where the title pattern matches |
| Patterns.Title | app/question_bank.py:37-43 | the exam title found is stripped |
| Patterns.NameEnd | app/question_bank.py:47 | the end of the run of letters and spaces from p |
| Patterns.SubjectAt | app/question_bank.py:46-49 | a subject match captures at least two characters, opening with an upper-case letter, all letters or spaces |
| Patterns.SubjectFrom | app/question_bank.py:46-49 | the position found is one where the subject pattern matches |
| Patterns.Subject | app/question_bank.py:46-51 | the subject found is non-empty, opens with an upper-case letter and is stripped |
| Patterns.MaxMarksFrom | app/question_bank.py:54-60 | the position found is one where the maximum-marks pattern matches |
| QuestionParser.DetectSection | app/question_parser.py:81-88 | a header line gives its numeral, one of I..X; any other line keeps the section in force |
| QuestionParser.SectionLine | app/question_parser.py:26-88 | a line "N. rest" sets section N for every numeral N |
| QuestionParser.FirstOrFrom | app/question_parser.py:192 | the first OR line at or after i, when there is one |
| QuestionParser.FirstOrFacts | app/question_parser.py:192 | the line found is an OR line and no line before it from i is; no result means no OR line from i |
| QuestionParser.FirstOrAt | app/question_parser.py:192 | an OR line with none before it from j is the one found |
| QuestionParser.SplitOrLines | app/question_parser.py:187-195 | a marked segment whose lines are some non-OR lines, an OR line and more lines is cut there: text the stripped part before, alternative the stripped part after |
| QuestionParser.OrLineSplit | app/question_parser.py:192 | splitting the joined lines on newlines gives them back, and the first OR line is the one between the two parts |
| QuestionParser.SplitOrAt | app/question_parser.py:192-195 | the split cuts at the first OR line of the text's lines |
| QuestionParser.SplitOrKeeps | app/question_parser.py:187-195 | the split changes only the text and the alternative, and nothing at all for an unmarked segment |
| QuestionParser.OrLineNotMarks | app/question_parser.py:162-174 | an OR line is never taken for a marks header |
| QuestionParser.QuestionLineNotBlank | app/question_parser.py:146-155 | a question line is never blank, so the segment it opens is always kept |
| QuestionParser.Classify | app/question_parser.py:137-174 | what the loop reads off a line: a number exactly when the question pattern matches, the OR flag exactly for OR lines, the marks flag exactly for marks headers |
| QuestionParser.Classified | app/question_parser.py:126-132 | every line of the page classified, in order |
| QuestionParser.QuestionLines | app/question_parser.py:142-159 | the positions of question lines below k, increasing |
| QuestionParser.QuestionLinesComplete | app/question_parser.py:142-159 | every question line below k is listed |
| QuestionParser.PageSegments | app/question_parser.py:142-184 | one segment per question line |
| QuestionParser.OpenedNotBlank | app/question_parser.py:146-155 | a segment opened by a non-blank line stays non-blank |
| QuestionParser.TextOfSnoc | app/question_parser.py:163-175 | appending a line adds it and its newline to the end of the text |
| QuestionParser.OpenStepMarks | app/question_parser.py:169-174 | a marks header leaves the open segment unchanged |
| QuestionParser.OpenStepKept | app/question_parser.py:161-175 | any other line is appended with its newline, and an OR line marks the alternative |
| QuestionParser.StepPosition | app/question_parser.py:133-176 | each pass advances the offset by the line and its newline and keeps the section in force |
| QuestionParser.ClosedSnoc | app/question_parser.py:145-149 | a question line closes the previous segment at its own offset |
| QuestionParser.StepQuestionClosed | app/question_parser.py:142-159 | a question line's pass keeps the closed segments equal to the reference |
| QuestionParser.StepQuestionOpen | app/question_parser.py:151-157 | a question line opens the reference segment for itself |
| QuestionParser.StepOtherOpen | app/question_parser.py:161-176 | any other line keeps the open segment equal to the reference |
| QuestionParser.StepOtherClosed | app/question_parser.py:161-176 | any other line leaves the closed segments alone |
| QuestionParser.StepMatches | app/question_parser.py:132-176 | one pass of the loop keeps the loop's state equal to the reference |
| QuestionParser.RunMatches | app/question_parser.py:132-176 | after k lines the loop's state matches the reference |
| QuestionParser.PageSegmentsOf | app/question_parser.py:178-182 | closing the last segment at the bottom of the page completes the reference |
| QuestionParser.FinishOf | app/question_parser.py:178-184 | after the loop, the segments are the reference and the section is the last header's |
| QuestionParser.ParsePageReference | app/question_parser.py:95-184 | a non-blank page without instructions gives one segment per question line and the last header's section |
| QuestionParser.ParsePageQuestions | app/question_parser.py:95-184 | a blank page or an instructions page gives no segment and keeps the section; any other page gives the reference segments and the last header's section |
| QuestionParser.ScanLines | app/question_parser.py:126-184 | the line loop computes the reference run |
| QuestionParser.Advance | app/question_parser.py:133-176 | one pass of the loop body |
| QuestionParser.NoHeaderKeepsSection | app/question_parser.py:136-139 | without a header the section carried in is kept |
| QuestionParser.LastHeaderSection | app/question_parser.py:136-139 | the section after the lines is the last header's |
| QuestionParser.SegmentFields | app/question_parser.py:151-157 | each segment carries its question's number (below 1000), the page, no images, the section in force at its line, and the OR mark exactly when an OR line lies in its span |
| QuestionParser.SegmentSpan | app/question_parser.py:134-180 | a segment starts at its line's fraction of the page and ends where the next question starts, or at 1.0 for the last |
| QuestionParser.OffsetGrows | app/question_parser.py:133-176 | the offset grows by at least one character per line |
| QuestionParser.FracBounds | app/question_parser.py:134 | a smaller offset is a smaller, non-negative fraction |
| QuestionParser.FracBelowOne | app/question_parser.py:134 | an offset inside the text is a fraction below 1 |
| QuestionParser.QuestionOffsets | app/question_parser.py:127-134 | every question line starts inside the text, and later questions start later |
| QuestionParser.SegmentPositions | app/question_parser.py:134-180 | every segment has both positions, with 0 <= start < end <= 1 |
| QuestionParser.SegmentsAdjacent | app/question_parser.py:147-156 | each segment ends where the next one starts |
| QuestionParser.OffsetJoin | app/question_parser.py:126-133 | the offset after k lines is the length of those lines joined by newlines, plus one |
| QuestionParser.PageOffset | app/question_parser.py:126-133 | the offsets of all the lines add up to the length of the text plus one |
| QuestionParser.ParsePageSegment | app/question_parser.py:95-184 | every segment of a page has a number below 1000, the page number, no images, and positions with 0 <= start < end <= 1, each ending where the next starts and the last at 1.0 |
| QuestionParser.ClassifiedLines | app/question_parser.py:126-172 | the page's lines carry their own OR and marks status and hold no newline |
| QuestionParser.BodyNoMarks | app/question_parser.py:169-174 | no marks header is kept in a segment's body |
| QuestionParser.BodyKeeps | app/question_parser.py:175 | every other line of the span is kept |
| QuestionParser.BodyNoNewline | app/question_parser.py:175 | the kept lines hold no newline |
| QuestionParser.BodyHasOr | app/question_parser.py:162-166 | a span with an OR line keeps that line in its body |
| QuestionParser.TextOfJoin | app/question_parser.py:163-175 | the accumulated text is the lines joined by newlines with a final newline |
| QuestionParser.TextLines | app/question_parser.py:155-175 | the accumulated text splits back into the question line, the kept lines and a final empty piece |
| QuestionParser.TextJoin | app/question_parser.py:155-175 | joining the question line, the kept lines and an empty piece gives the accumulated text |
| QuestionParser.SplitOrOf | app/question_parser.py:192-195 | a marked segment with an OR line among its lines is cut at the first one |
| QuestionParser.SegmentBeforeSplit | app/question_parser.py:151-166 | before the split, a segment's text is its stripped question line and its kept lines, and its mark says whether an OR line lies in its span |
| QuestionParser.SplitTextOr | app/question_parser.py:187-195 | a marked segment is cut at the first OR line of its question line and kept lines |
| QuestionParser.SegmentText | app/question_parser.py:151-195 | without an OR line a segment's text is the stripped question line and its kept lines and it has no alternative; with one, the text is the stripped part before the first OR line and the alternative the stripped part after it |
| QuestionPages.ParseAllPages | app/question_parser.py:198-227 | the segments of all pages, each page starting in the section the previous one left, sorted by question number (missing or 0 as 9999): sorted, a permutation, and stable among equal numbers |
| QuestionPages.PageNumbered | app/question_parser.py:151-157 | every segment of a page has a number below 1000 and no images |
| QuestionPages.CollectedNumbers | app/question_parser.py:215-223 | every collected segment has a number below 1000 and no images |
| QuestionPages.NumberedConcat | app/question_parser.py:223 | extending numbered segments by numbered segments keeps them numbered |
| QuestionPages.UnnumberedLast | app/question_parser.py:226 | after the sort, every segment after one keyed 9999 is keyed 9999 too, which only question number 0 can be |
| QuestionPages.DescribedOn | app/question_parser.py:263-274 | the description index keeps only diagrams with a non-empty description |
| QuestionPages.BuildDiagramIndex | app/question_parser.py:262-274 | the loop builds, page by page, the list of the page's described diagrams in order; no diagrams result gives an empty index |
| QuestionPages.FirstNear | app/question_parser.py:364-371 | the first diagram within 20 points of the image on both axes, none before it being near |
| QuestionPages.FindDescription | app/question_parser.py:356-372 | no description exactly when no diagram on the page is near; otherwise the description of a near diagram |
| QuestionPages.OnPage | app/question_parser.py:258-280 | exactly the positions of the segments on page p, in order |
| QuestionPages.Figures | app/question_parser.py:286 | exactly the page's segments whose text mentions a figure, in order |
| QuestionPages.FirstMin | app/question_parser.py:347-351 | min with a key: a position with the smallest score, and the first such one |
| QuestionPages.Scores | app/question_parser.py:330-343 | each candidate's proximity score |
| QuestionPages.PickBest | app/question_parser.py:316-353 | the pick is one of the segments |
| QuestionPages.PickBestFacts | app/question_parser.py:316-353 | no pick exactly when the page has no segment; otherwise a page segment, a figure-mentioning one when any exists, scoring no higher than any other candidate and lower than every earlier one |
| QuestionPages.Height | app/question_parser.py:278 | a missing or zero page height falls back to 792 points, so the fraction is always defined |
| QuestionPages.AttachImages | app/question_parser.py:288-313 | attaching images keeps the number of segments |
| QuestionPages.AttachPages | app/question_parser.py:276-313 | attaching the pages' images keeps the number of segments |
| QuestionPages.NoSegmentsNoChange | app/question_parser.py:282-283 | a page without segments changes nothing |
| QuestionPages.AssociateImages | app/question_parser.py:234-313 | the loop over pages attaches the pages' images in order |
| QuestionPages.AttachPageImages | app/question_parser.py:285-313 | the loop over one page's images attaches them in order |
| QuestionPages.AttachOne | app/question_parser.py:289-313 | one image: skipped without a box, otherwise appended to the picked segment with the description of a near diagram |
| QuestionPages.TargetOnPage | app/question_parser.py:280-300 | an image finds a segment exactly when its page has one, and that segment is on its page |
| QuestionPages.AppendGrows | app/question_parser.py:305-313 | appending an image to one segment only extends that segment's images |
| QuestionPages.AttachImageGrows | app/question_parser.py:288-313 | an image only extends the images of segments on its own page; nothing else about any segment changes |
| QuestionPages.AttachImagesGrows | app/question_parser.py:288-313 | a page's images only extend the images of the page's own segments |
| QuestionPages.AssociateKeeps | app/question_parser.py:276-313 | every segment keeps all its other fields and its earlier images, and segments of pages not listed are untouched |
| QuestionPages.NoBoxesPage | app/question_parser.py:290-291 | images without a box attach nothing |
| QuestionPages.NoBoxesNoChange | app/question_parser.py:290-291 | when no page image has a box, association changes nothing |
| QuestionPages.ImageCountUpdate | app/question_parser.py:305 | replacing one segment changes the image count by the difference |
| QuestionPages.AttachImageCount | app/question_parser.py:288-313 | an image adds exactly one attachment when it has a box and its page has a segment, and none otherwise |
| QuestionPages.AttachImagesCount | app/question_parser.py:288-313 | a page adds one attachment per boxed image when it has a segment |
| QuestionPages.AssociateCount | app/question_parser.py:234-313 | association adds exactly one attachment per placed image: none is lost or duplicated |
| QuestionEnricher.GuessDifficulty | app/question_enricher.py:264-272 | none exactly without marks; "easy" exactly for at most 1 mark, "medium" exactly for 2-3, "hard" exactly above 3 |
| QuestionEnricher.DifficultyMonotone | app/question_enricher.py:264-272 | more marks never give an easier difficulty |
| QuestionEnricher.GuessMarks | app/question_enricher.py:252-261 | a guessed mark is between 1 and 10 |
| QuestionEnricher.TwoDigits | app/question_enricher.py:256 | a number below 100 has at most two digits |
| QuestionEnricher.GuessMarksOf | app/question_enricher.py:252-261 | a text ending in a space and a number from 1 to 10 is guessed to be worth that number |
| QuestionEnricher.Options | app/question_enricher.py:235-249 | every option has an upper-case label A-D and a stripped text |
| QuestionEnricher.FallbackOf | app/question_enricher.py:204-231 | the rule-based entry keeps the question number, has no topic or sub-parts, is "mcq" exactly when options were found, carries the options, a mark between 1 and 10 when one is guessed, a difficulty exactly when a mark is, and needs a figure exactly when the text refers to one |
| QuestionEnricher.Fallback | app/question_enricher.py:204-232 | one rule-based entry per segment, in order |
| QuestionEnricher.FallbackConcat | app/question_enricher.py:204-232 | the rule-based enrichment of two lists is the enrichments of each, concatenated |
| QuestionEnricher.FallbackEnrichment | app/question_enricher.py:204-232 | the loop computes the rule-based enrichment |
| QuestionEnricher.Header | app/question_enricher.py:67-70 | two opening parts with a non-empty exam context, one without |
| QuestionEnricher.Mapped | app/question_enricher.py:71-89 | one entry per segment |
| QuestionEnricher.Separated | app/question_enricher.py:88-89 | two parts per entry |
| QuestionEnricher.SeparatedSnoc | app/question_enricher.py:88-89 | one more entry adds it and a separator |
| QuestionEnricher.SeparatedLayout | app/question_enricher.py:88-89 | each entry is followed by "---" |
| QuestionEnricher.MappedAt | app/question_enricher.py:71-88 | the i-th entry is that of the i-th segment |
| QuestionEnricher.EntryLayout | app/question_enricher.py:62-90 | after the opening parts, every segment's entry appears in order, each followed by "---" |
| QuestionEnricher.PartsLayout | app/question_enricher.py:88-90 | the layout of the opening parts followed by the separated entries |
| QuestionEnricher.OrPartShown | app/question_enricher.py:84-85 | the alternative is shown exactly when the mark is set and its text is non-empty, and then it is that text after "\nOR\n" |
| QuestionEnricher.FigureNotesOf | app/question_enricher.py:77-81 | the loop computes one note per image with a non-empty description |
| QuestionEnricher.BuildUserPrompt | app/question_enricher.py:62-90 | the loop computes the prompt: the parts joined by newlines |
| QuestionEnricher.BuildParts | app/question_enricher.py:67-89 | the loop computes the prompt's parts |
| QuestionEnricher.BuildBody | app/question_enricher.py:71-89 | the loop computes each segment's entry followed by "---" |
| QuestionEnricher.BuildHeader | app/question_enricher.py:67-70 | the opening parts: the exam context when there is one, then the heading |
| QuestionEnricher.BuildEntry | app/question_enricher.py:72-87 | one segment's entry: number, section and text, then the alternative and the figure notes |
| QuestionEnricher.Batch | app/question_enricher.py:136-137 | a batch holds between 1 and 15 segments |
| QuestionEnricher.BatchCount | app/question_enricher.py:136 | just enough batches of 15 to cover the segments |
| QuestionEnricher.EnrichQuestions | app/question_enricher.py:97-146 | no segments give nothing; without a model the rule-based enrichment; otherwise each batch's answer when it is a non-empty list, else that batch's rule-based enrichment |
| QuestionEnricher.EnrichBatches | app/question_enricher.py:136-146 | the batch loop computes the enrichments of all batches, in order |
| QuestionEnricher.EnrichBatch | app/question_enricher.py:137-144 | one batch's result, from a prompt built from exactly that batch |
| QuestionEnricher.BatchesCover | app/question_enricher.py:136-137 | the first k batches are the first 15k segments, in order |
| QuestionEnricher.BatchesPartition | app/question_enricher.py:136-137 | the batches together are exactly the segments, in order |
| QuestionEnricher.BatchFull | app/question_enricher.py:134-136 | every batch but the last holds 15 segments |
| QuestionEnricher.AllFailedUpTo | app/question_enricher.py:140-144 | when every call fails or answers an empty list, the first k batches get the rule-based enrichment |
| QuestionEnricher.AllFailed | app/question_enricher.py:97-146 | when every call fails or answers an empty list, the result is the rule-based enrichment of all segments |
| QuestionEnricher.MatchingAnswersUpTo | app/question_enricher.py:136-146 | when every answer has one entry per question of its batch, the result has one entry per segment |
| QuestionBank.ExtractExamMetadata | app/question_bank.py:32-62 | a title found is stripped; a subject found is non-empty, opens with an upper-case letter and is stripped |
| QuestionBank.ExamContext | app/question_bank.py:153-156 | a context exactly when the title or the subject is known and non-empty |
| QuestionBank.ContextParts | app/question_bank.py:156 | the context is the title, " - " and the subject, an unknown one standing as empty |
| QuestionBank.Headers | app/question_bank.py:75-85 | every header names a known numeral and its text lies inside the full text |
| QuestionBank.SectionOf | app/question_bank.py:81-98 | a kept section carries its header's numeral |
| QuestionBank.SectionOptions | app/question_bank.py:81-98 | one outcome per header |
| QuestionBank.Present | app/question_bank.py:93-98 | no more values than outcomes |
| QuestionBank.PresentSnoc | app/question_bank.py:93-98 | one more outcome adds its value when it has one |
| QuestionBank.PresentNext | app/question_bank.py:93-98 | the values up to i+1 are those up to i and the i-th when present |
| QuestionBank.PresentFrom | app/question_bank.py:93-98 | every value comes from some outcome |
| QuestionBank.PresentHas | app/question_bank.py:93-98 | every present outcome's value is kept |
| QuestionBank.ExtractSections | app/question_bank.py:65-100 | the loop computes the sections of the headers whose first marks header multiplies out, in header order |
| QuestionBank.SectionAtHeader | app/question_bank.py:82-98 | one header: the text up to the next header is searched for marks, and the section is kept only when count times marks equals the total |
| QuestionBank.SectionsFromHeaders | app/question_bank.py:81-98 | every section comes from a header whose marks multiply out |
| QuestionBank.HeaderKept | app/question_bank.py:81-98 | every header whose marks multiply out gives a section |
| QuestionBank.BuildLookup | app/question_bank.py:168-172 | the loop computes the lookup by question number |
| QuestionBank.LookupLastWins | app/question_bank.py:168-172 | a number is in the lookup exactly when some enrichment carries it, and then it maps to the last such enrichment |
| QuestionBank.QuestionFacts | app/question_bank.py:174-242 | a question keeps its segment's number (0 when missing), section, page, text, images and OR mark; it takes the type, marks, topic, difficulty, options and sub-parts of the enrichment under its number, and has none of them when there is none |
| QuestionBank.AlternativeFacts | app/question_bank.py:213-225 | an alternative question exists exactly when the OR mark is set and the alternative text is non-empty; it has that text, the main question's number, section, page, type, marks, topic and difficulty, and no options, sub-parts, images or alternative |
| QuestionBank.SameNumberSameEnrichment | app/question_bank.py:176 | segments with the same number (or both unnumbered) get the same enrichment |
| QuestionBank.BuildQuestions | app/question_bank.py:174-242 | one question per segment, in order |
| QuestionBank.QuestionWith | app/question_bank.py:175-241 | one segment's question |
| QuestionBank.PageTexts | app/question_bank.py:125-132 | one page text per page |
| QuestionBank.ImagePages | app/question_bank.py:125-137 | one page per page, with no images, as the dumped result carries none |
| QuestionBank.BuildQuestionBank | app/question_bank.py:107-263 | one question per parsed segment, in order, with the enrichment under its number; the total is the number of questions; id, name and time carried over; the header metadata and the sections of the full text |
| QuestionBank.UniqueNumberOwnFallback | app/question_bank.py:163-176 | without the model, a segment whose number no other shares gets the marks, difficulty and options read off its own text |
| QuestionBank.UnnumberedGetsNothing | app/question_bank.py:168-177 | an unnumbered segment, when no segment is numbered 0, is question 0 with no enrichment |
| Extract.TargetOverrides | app/extract.py:43-53 | only a quality target of 90 has overrides, and they are the 90 table; any other target, or none, gives none |
| Extract.OcrRequiredEmpty | app/extract.py:343-352 | no page needs OCR exactly when there are no pages, or Tika succeeded, OCR is not forced and every page's stripped Tika text has at least 50 characters |
| Extract.FractionFacts | app/extract.py:151-155 | a count over a non-zero total it does not exceed lies in [0, 1] and is 0 exactly when the count is 0 |
| JobStore.Without | app/job_store.py:190 | removing an id leaves exactly the other ids |
| JobStore.SurvivorsOf | app/job_store.py:183-190 | the ids left after deletions are exactly the ids not deleted |
| JobStore.SurvivorsOfSnoc | app/job_store.py:189-190 | deleting one more id removes exactly that id from the survivors |
| Ocr.RowStrategy | app/ocr.py:336-358 | the j-th candidate of a row runs the row's preprocessing with the j-th psm |
| Ocr.CandidateStrategy | app/ocr.py:326-358 | every candidate's strategy is one of the (preprocessing, psm) pairs |
| Ocr.WithConsensus | app/ocr.py:373-383 | every candidate gets a consensus similarity, one per candidate |
| Ocr.PagesSpec | app/ocr.py:439-443 | one OCR page per rendered image |
| Consolidated.ApprovedNumbers | app/consolidated.py:41 | there are no more approved page numbers than gates |
| Consolidated.NeedsReview | app/consolidated.py:42-51 | there are no more pages needing review than gates |
| Utils.EditDistanceStep | app/utils.py:65-70 | the edit distance of two non-empty prefixes is the least of a deletion, an insertion and a (free when equal) substitution, the recurrence the table follows |
| Utils.RatioFacts | app/utils.py:83-93 | an error count over a positive word count is non-negative, 0 exactly when the count is 0, and 1 when they are equal |
| PdfText.AllWellFormedConcat | app/pdf_text.py:82-124 | joining two lists of well-formed entries keeps every entry well formed |

## Left out

- Foreign engines: Apache Tika, Tesseract, PaddleOCR, PyMuPDF, pdf2image, pix2tex, Camelot, the vision-language model and the language model are not modelled. Their outputs are inputs to the model (token tables, histograms, densities, contours, text maps, table frames, recognised LaTeX, VLM descriptions and errors, LLM replies).
- Image processing: `preprocess_image`, `_apply_osd_rotation`, `detect_table_lines`, `remove_table_lines`, `_to_cv_gray` and the density computation of `classify_layout` (app/ocr.py:108-161, 209-262) are pixel work. Only the decisions taken on their results are modelled.
- `_call_llm` (app/question_enricher.py:149-197): the HTTP request, its retries, the stripping of code fences and the JSON parsing are not modelled. Its parsed reply, or its failure, is an input to `enrich_questions`. The model name, the API key and the timeouts are configuration the model does not read.
- VLM description calls (app/diagram_vlm.py) are not part of this model. `_process_one_figure` receives the description or the error as an input.
- Concurrency: the thread pools (OCR page workers, diagram workers, the worker pool in app/worker.py) and the job-store lock are modelled as sequential loops. `executor.map` keeps the order of its inputs, which the sequential model keeps as well.
- Disk, clock and identifiers: file reads and writes (job JSON files, saved images, deleted uploads), `uuid4` and `time.time()` become parameters or a map standing for the persistence directory. Serialisation to JSON is not modelled.
- Floating point: confidences, ratios and similarities are exact reals, and every rounding is dropped: `round(x, 4)` on the gate metrics and the mean confidence of the stats (app/extract.py:135, 252-265); `round(x, 2)` on page sizes and boxes (app/pdf_text.py:52, 86-89, 109-112), span font sizes (app/pdf_text.py:122), image and figure rectangles (app/providers/image_extract.py:39-42, app/figure_extract.py:77-80) and figure areas (app/figure_extract.py:85), PaddleOCR confidences (app/providers/ocr_paddle.py:120), table boxes and accuracies (app/providers/table_extract.py:118-121, 128); and `round(x, 1)` in the HTML reconstruction (app/providers/reconstruct.py:36, 78, 102).
- Utils.GetPdfPageCount: the message of int()'s ValueError quotes the unreadable text between single quotes. Python's `repr` picks double quotes for text holding a single quote and escapes control characters; the model does not.
- Text: strings are ASCII. `lower`, `strip`, `split` and the regular expressions follow Python's behaviour on ASCII input. Unicode case folding and Unicode whitespace are not modelled.
- In-place updates of dictionaries shared between functions (segments updated by `_split_or_alternative` and `associate_images`, candidates given a consensus in `_ocr_page`, the sorted segment list of `parse_all_pages`) are modelled as functions or methods returning the updated sequence. Aliasing between those dictionaries and other holders is not modelled.
- Python dictionaries with optional keys (segments, figure records, page entries) are datatypes. A key that is absent and a key holding `None` are not distinguished where the code reads both with `.get`.
- The PaddleOCR engine singleton `_get_engine` and the cached `is_available` checks (app/providers/ocr_paddle.py) are an availability flag given as input.
- `log_startup_config` (app/config.py) only logs, so it is not modelled.
- FastAPI endpoints, upload streaming, the command-line interface, scripts and the Supabase ingest lie outside this model. Of app/api.py only `_apply_safe_limits` is modelled.
- Figure decoding with PIL (app/figure_extract.py:70-75) is an input saying whether the image bytes decode and what size they give.
- `rerun_page_ocr` (app/ocr.py:525-570) builds a psm tuple, reversed on attempt 0, that is used only when the layout has no preset. `classify_layout` always returns a layout with a preset, so the model keeps only the preset's psm list.
- Extract.ReplacedFacts: the retry loop's promise that a kept result is never worse is proved page by page. The model states no monotonicity across the whole document, because the source does not compare whole documents.
- Worker.Run and the JobStore mutators: no monotonic order of job states is stated, because the source's mutators do not guard their transitions.
- Utils.SimilarityRatio: no lower bound of 0 is stated, because the word error rate can exceed 1 and the similarity is then negative.
- QuestionBank.BuildQuestionBank: `build_question_bank` passes `model_dump()` pages, which carry no `images` entry, to `associate_images`, so no image is ever attached. The model keeps that behaviour and proves the attachment step changes nothing there.
- QuestionBank.ExtractSections: the header pattern's trailing `\s+` can consume the newline and the indentation of the following line. The model follows the expression as written.
- Extract.QualitySummaryOf: the summary reports the base thresholds of the quality target, not the layout-relaxed thresholds of each page. The code is followed here, not the documented intent.
