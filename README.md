# AtlantisBot3x: a verified model of the decision logic

AtlantisBot3x is a daily pipeline. It runs Google searches for investment
memos and keeps the result pages. From those pages it extracts the search
results, has a language model rate them in batches and keeps the
well-rated ones as "ready candidates". It downloads their documents
(PDFs only, or any page) and converts them to text. Each text is then
analysed by a language model, summarising a long document chunk by chunk
first, and every result is sent on. A separate duplicate checker compares
a new summary with the results of recent runs.

This project models the logic around the model calls, HTTP requests and
file I/O in Dafny, one module per source file:
- `DuplicateChecker`: the recency window, the character budget and the
  duplicate verdict.
- `DocumentAnalysis`: token chunking, the single-call or chunk-then-final
  reducer, and prompt assembly.
- `BatchRating`: fixed-size batches, the prompt format, and the merge of
  the parsed ratings.
- `Pipeline`: the threshold filter, the hash-indexed candidate table that
  the analysis results are merged into, the default query, the copy step
  and the early exit of the main run.
- `ResultExtraction`: the identity hash, the description fallback and the
  deduplication by link.
- `FileWork` and `PdfWork`: the candidate filters, save paths,
  extensions, acceptance rules, retries and text-file naming.
- `Scheduler`: the wait until the next daily run.

The shared modules are:
- `Text`: Python string operations (`strip`, `lower`, `replace`, `str(n)`).
- `Paths`: pathlib's stem and suffix, and `os.path.join`.
- `Slicing`: `xs[i:i+size]` over `range(0, len(xs), size)`, and `xs[:n]`.
- `OrderedDict`: a dict with insertion order, where the last write wins.
- `Fences`: the two response cleaners built from regular expressions.
- `Retry`: the bounded retry loop both downloaders share.
- `Downloads`: download outcomes, tasks and the per-file conversion loop.
- `Filtering`: list comprehensions with a condition.
- `Candidates` and `Wrappers`: the records and `Option`.

The collaborators are inputs:
- A model call is an `Outcome`, either `Ok(text)` or `Fail`. Call `k`
  gets `replies[k]`, and a call beyond the sequence fails.
- The tokenizer is an `encode` function and an uninterpreted `decode`.
- SHA-256, the JSON parser of a reply and the text extractors are
  function parameters.
- Directory listings and globs are sequences of names in the order the
  filesystem yields them.
- Run folders are records: whether it is a directory, its modification
  time, and its candidates file.
- `random.randint` is a sequence of draws.
- The clock is an integer parameter.

Where the code and its comments disagree, the model follows the code.
`is_duplicate`'s truncation walks the newest-first list from its end. It
therefore keeps the oldest results that fit the 15000-character budget
and drops the newest ones. The comment at duplicate_checker.py:94 says
the opposite. `DuplicateChecker.BudgetedFits` and
`DuplicateChecker.BudgetedMaximal` state what the code does.

## Model

| member | source | states |
|---|---|---|
| Fences.CleanResponseUnwraps | duplicate_checker.py:19-22 | a reply wrapped in one fence comes back as its inner text, stripped. The fence may have leading whitespace, an optional `json` tag in any case, and trailing whitespace |
| Fences.CleanResponseUnfenced | ai_api_final.py:21-24 | a reply with no fence at either end comes back just stripped |
| Fences.DropLeadingOfFenced | duplicate_checker.py:20 | the opening substitution removes the whitespace, the fence and an optional tag, then the whitespace after them |
| Fences.DropTrailingOfFenced | duplicate_checker.py:21 | the closing substitution removes a final fence with the whitespace around it |
| Fences.CleanJsonUnwraps | ai_api.py:16-24 | a reply that starts exactly with a fence, optionally tagged `json`, and ends with one, optionally followed by a newline, comes back as its inner text, stripped |
| Fences.CleanJsonKeepsIndentedFence | ai_api.py:21-23 | with whitespace before the opening fence, the JSON cleaner leaves the fence in place |
| Fences.CleanJsonTagged | ai_api.py:21-22 | after a tagged fence the cleaner goes on with the left-stripped text after the tag |
| Fences.CleanJsonUntagged | ai_api.py:22 | without a tag it goes on with the text after the fence |
| Fences.DropJsonFenceOf | ai_api.py:21 | the first substitution removes a leading fence only when it is tagged `json`, together with the whitespace after it |
| Fences.DropOpeningFenceOf | ai_api.py:22 | the second substitution removes a leading fence and the whitespace after it |
| Fences.DropClosingBeforeNewline | ai_api.py:23 | `$` also matches before a final newline, so a fence followed by one newline is removed and the newline stays |
| Fences.DropClosingOfFenced | ai_api.py:23-24 | followed by `strip`, the closing substitution removes only the fence and the whitespace around it |
| DuplicateChecker.GetRecentResults | duplicate_checker.py:24-76 | the scan, then the sort and the cut, give exactly the recent results |
| DuplicateChecker.ScanFolders | duplicate_checker.py:36-71 | the folder loop collects the entries of every folder it scans, in directory order |
| DuplicateChecker.ScanFolder | duplicate_checker.py:37-71 | one folder contributes its texts, stamped with its time, when it is a directory modified at or after the cutoff whose file parses |
| DuplicateChecker.FolderTexts | duplicate_checker.py:57-67 | the candidate loop appends the texts of the kept items, up to the first item on which it raises |
| DuplicateChecker.SkippedFolder | duplicate_checker.py:37-51 | a folder that is not a directory, has no readable time, is older than the cutoff, or has no readable candidates file contributes nothing, and the scan goes on |
| DuplicateChecker.ExcludedContributesNothing | duplicate_checker.py:59-60 | a record whose hash is the excluded one contributes nothing, whatever its result |
| DuplicateChecker.ItemTextsStopAtAbort | duplicate_checker.py:53-71 | an item on which the loop raises ends that folder: the texts before it are kept and nothing after it is |
| DuplicateChecker.ItemTextsSound | duplicate_checker.py:62-67 | every text kept passes the test and is the unstripped result of a record that is not excluded |
| DuplicateChecker.FolderEntriesSound | duplicate_checker.py:63-67 | every entry of a folder is substantive: not blank and not "X" once stripped |
| DuplicateChecker.CollectEntriesSound | duplicate_checker.py:36-71 | every collected entry is substantive and comes from a record of a scanned folder |
| DuplicateChecker.RecentResultsSound | duplicate_checker.py:24-76 | every recent result is a substantive text stored by a folder modified at or after now − hours_back, and its record's hash is not the excluded one |
| DuplicateChecker.RecentResultsShape | duplicate_checker.py:73-76 | at most `limit` results; when the base folder exists they are the texts of the first `limit` collected entries, newest folders first |
| DuplicateChecker.SortSorted | duplicate_checker.py:74 | the sort orders by descending time and is a permutation |
| DuplicateChecker.SortStable | duplicate_checker.py:74 | the sort is stable: the entries with one time keep their order, so the entries of one folder stay in file order |
| DuplicateChecker.InsertPermutes | duplicate_checker.py:74 | inserting adds exactly the one entry |
| DuplicateChecker.InsertSorted | duplicate_checker.py:74 | inserting into a newest-first list keeps it newest first |
| DuplicateChecker.SelectedFromEntries | duplicate_checker.py:74-76 | the sort and the cut keep only texts of collected entries |
| DuplicateChecker.SumLengths | duplicate_checker.py:90 | the first loop computes the total length of the texts |
| DuplicateChecker.KeepOldest | duplicate_checker.py:95-102 | the second loop keeps the longest tail of the list that fits the budget, in the list's order |
| DuplicateChecker.TruncateOldTexts | duplicate_checker.py:89-102 | the list is cut only when its total length is over 15000 |
| DuplicateChecker.TakeFromBackTail | duplicate_checker.py:97-102 | what the loop keeps is a tail of the list, in order |
| DuplicateChecker.TakeFromBackFits | duplicate_checker.py:98-101 | what the loop keeps fits the budget |
| DuplicateChecker.TakeFromBackMaximal | duplicate_checker.py:98-99 | taking one more text from the end would exceed the budget |
| DuplicateChecker.BudgetedFits | duplicate_checker.py:89-102 | the texts sent never total more than 15000 characters, and they are a tail of the newest-first list: the oldest ones |
| DuplicateChecker.BudgetedMaximal | duplicate_checker.py:93-102 | when a cut was needed, the next newer text would not fit beside the texts kept |
| DuplicateChecker.LowerStartsWithYes | duplicate_checker.py:146 | a lower-cased text starts with "yes" exactly when its first three characters spell it in any case |
| DuplicateChecker.SaysYesIff | duplicate_checker.py:143-146 | the verdict depends only on the first three characters of the cleaned reply |
| DuplicateChecker.IsDuplicate | duplicate_checker.py:78-153 | the model is called exactly when the text is non-empty and does not strip to "X", recent results exist and an API key is configured. The prompt holds the new text and the budgeted old ones. The answer is a duplicate exactly when that call succeeds and its reply says yes |
| Slicing.Chunks | ai_api_final.py:30-33 | one slice per start in `range(0, n, size)`, slice `k` being the `k`-th run of `size` elements |
| Slicing.ChunkIndexIff | ai_api.py:48 | chunk `k` exists exactly when its start `k * size` lies inside the sequence |
| Slicing.ChunkSizes | ai_api.py:48-49 | every chunk is non-empty and holds at most `size` elements; all but the last hold exactly `size` |
| Slicing.ConcatFirstChunks | ai_api_final.py:30-34 | the first `m` chunks together are the first `min(n, m * size)` elements |
| Slicing.ConcatChunks | ai_api.py:48-49 | the chunks together give back the whole list |
| Slicing.SliceTo | duplicate_checker.py:76 | `xs[:limit]`, a negative bound counting from the end |
| DocumentAnalysis.ChunkText | ai_api_final.py:26-34 | the chunk loop, then the first five texts |
| DocumentAnalysis.ChunkTextsShape | ai_api_final.py:26-34 | at most five texts; text `k` decodes tokens `k * 10000` up to `(k + 1) * 10000`; empty input gives none |
| DocumentAnalysis.ChunkTextsCover | ai_api_final.py:30-34 | the texts summarised cover exactly the first `min(n, 50000)` tokens |
| DocumentAnalysis.DecodedChunksIndex | ai_api_final.py:30-33 | the `j`-th text appended is the decoded `j`-th slice |
| DocumentAnalysis.AnalyzeTxtFile | ai_api_final.py:36-125 | the analysis of one text file: its result and the prompts it sends, in order |
| DocumentAnalysis.AnalyzeNeedsKeyTemplateDocument | ai_api_final.py:41-56 | nothing is sent exactly when the API key, the template or a readable document is missing, and then there is no result |
| DocumentAnalysis.AnalyzeSmallDocument | ai_api_final.py:64-81 | a document of at most 25000 tokens is sent whole in one call after the filled template and the document header. The result is the verdict of that call's answer, so it exists exactly when that call succeeds |
| DocumentAnalysis.AnalyzeLargeDocument | ai_api_final.py:84-125 | a larger document costs one call per chunk, at most five, and one final call. Chunk call `k` sends the numbered prompt for chunk `k`. The final prompt is the filled template, the summary header and the chunk summaries joined by blank lines. The result is the verdict of the final answer, so it exists exactly when the final call succeeds |
| DocumentAnalysis.AnalyzeCallsIndependentOfReplies | ai_api_final.py:92-106 | the number of calls does not depend on what the model answers: a failed chunk call does not stop the run. The final prompt does depend on the answers |
| DocumentAnalysis.SummariesIndex | ai_api_final.py:87-106 | part `k + 1` is summarised by the cleaned answer of its call, or by "❌ Error summarizing chunk k+1" when that call fails |
| DocumentAnalysis.SummariesGrow | ai_api_final.py:87-106 | later parts do not change the summaries of earlier ones |
| DocumentAnalysis.FilledTemplateHasNoPlaceholder | ai_api_final.py:61-62 | a date of digits and dashes replaces every `{{current_date}}`, and none is left |
| DocumentAnalysis.ChunkPromptsIndex | ai_api_final.py:87-91 | chunk call `k` of a run sends the prompt numbered `k + 1` of the total, holding chunk `k` |
| DocumentAnalysis.ThirtyThousandTokens | ai_api_final.py:84-125 | the analysis of a 30000-token document makes four calls, three chunk calls and the final one, and its result is the verdict of the fourth answer |
| BatchRating.FormatPrompt | ai_api.py:26-37 | the prompt loop builds the base prompt, "\n\nItems:\n", then one block per candidate |
| BatchRating.BatchPromptLists | ai_api.py:29-36 | the prompt lists the candidates in order: the block of candidate `k` comes between the blocks of those before it and those after it |
| BatchRating.RateBatch | ai_api.py:49-73 | one batch has its prompt. A successful call whose cleaned reply parses is merged in with `update`; a failed call leaves the ratings as they were |
| BatchRating.RateEntriesWithGpt | ai_api.py:39-75 | the rating run: first the key check, then the loop over the batches |
| BatchRating.RateCalls | ai_api.py:41-50 | without an API key the run raises before any call. Otherwise there is one call per batch of consecutive candidates, in order, and an empty list gives no call and `{}` |
| BatchRating.RatingsAfterKeeps | ai_api.py:66-73 | a hash rated by some batch is still rated at the end: a later failed or unparsable batch removes nothing |
| BatchRating.RatingsAfterSource | ai_api.py:63-73 | every rated hash comes from a batch whose reply parsed and rated it |
| BatchRating.RatingsAfterLastWins | ai_api.py:66 | a hash keeps the rating of the last batch that rated it |
| BatchRating.MergedLastWins | ai_api.py:66 | in the merged map, the last map holding a key gives its value |
| BatchRating.BatchPromptsIndex | ai_api.py:48-50 | batch `k`'s prompt lists exactly chunk `k` of the candidates |
| BatchRating.TwentyFiveCandidates | ai_api.py:39-49 | rating 25 candidates with a key makes three calls, whose prompts carry candidates 0-9, 10-19 and 20-24 |
| Pipeline.ReadyMembers | main.py:76-84 | a candidate is kept exactly when it is one of the results and its rating reaches the threshold, an unrated hash counting 0. The kept ones stay in their order |
| Pipeline.CandidateTable | main.py:49 | the table indexed by hash is well formed |
| OrderedDict.FromListEntries | main.py:49 | the keys of `{key(x): x for x in xs}` are exactly the keys of the elements, and each maps to the last element with that key |
| OrderedDict.FromListOrder | extract_google_results.py:85 | the keys come in the order of their first appearance |
| OrderedDict.Put | main.py:65 | assigning to a key changes only that key's entry; an existing key keeps its place and a new key goes last |
| OrderedDict.Values | main.py:71 | `list(d.values())` lists the entries in key order |
| Pipeline.AnalyzeAllTxts | main.py:43-73 | the list written back is the table after every text file has been handled, and the notices are the ones those files send |
| Pipeline.ApplyAll | main.py:53-68 | the loop over the text files gives the table and the notices after all of them |
| Pipeline.ApplyAnalysis | main.py:54-68 | one file updates its candidate's result and sends one notice with that result and the candidate's link. This happens when the candidate is in the table and the analysis returned a truthy result; otherwise nothing changes |
| Pipeline.Applied | main.py:57-65 | only a matching entry's result changes; the keys and their order are kept |
| Pipeline.TableAfterKeeps | main.py:53-71 | handling text files never adds or removes a candidate and keeps the order of the table |
| Pipeline.StemsOfIndex | main.py:54 | the hash a text file names is its stem |
| Pipeline.EntryUntouched | main.py:57-68 | a candidate that no file updated is written back as read. A file naming no candidate, or whose analysis raised or returned nothing, changes nothing |
| Pipeline.EntryLastResult | main.py:62-65 | a candidate takes the result of the last file that updated it |
| Pipeline.OnlyResultChanges | main.py:65 | only the result field of an entry is replaced; its hash, title, link and description stay as read |
| Pipeline.NoticeSource | main.py:62-66 | every notice comes from one file: it carries that file's result and the link of the candidate the file names |
| Pipeline.NoticesCount | main.py:64-66 | one notice per file that updated its candidate, and no other |
| Pipeline.QueriesToRun | main.py:93-96 | the configured query list when it is non-empty; otherwise exactly one query, `google.query` or the built-in one |
| Pipeline.CombineQueryFolders | main.py:133-140 | every regular file of every per-query folder is copied, in order, under the name stem + "_" + n + suffix, where n is its draw |
| Pipeline.CopyFolder | main.py:136-140 | the copy loop over one folder |
| Pipeline.CopyNamesIndex | main.py:138 | copy `i` gets the name built from file `i` and draw `i` |
| Pipeline.UniqueNameKeepsSuffix | main.py:138 | a copied name keeps the original suffix, and its stem is the original stem with "_n" appended |
| Pipeline.PlanAfterCombine | main.py:142-170 | a run that copied no page returns before extraction; otherwise the download route follows `download_type` |
| Pipeline.DownloadRoute | main.py:98 | the PDF downloader is used exactly when `download_type` is "pdf" or not configured |
| ResultExtraction.GenerateHash | extract_google_results.py:8-12 | the hash is at most 16 characters, exactly 16 when the digest is that long |
| ResultExtraction.HashOnlyOfJoinedText | extract_google_results.py:10-12 | the hash depends only on the three fields joined by the separator, and fields that join to the same text get the same hash |
| ResultExtraction.SeparatorCollision | extract_google_results.py:10 | the separator may occur inside a field, so two different records (the first field holding the separator in one, the second in the other) join to the same text and so get the same hash |
| ResultExtraction.ExtractResultsFromHtml | extract_google_results.py:14-63 | the container loop gives the page's records in container order |
| ResultExtraction.ExtractedSound | extract_google_results.py:20-61 | every record comes from a container with a title and a link carrying `href`, and it is hashed from its own final name, link and description |
| ResultExtraction.ExtractedCount | extract_google_results.py:21-29 | there is one record per container that has a title and a link, and none for the others |
| ResultExtraction.SnippetUntruncated | extract_google_results.py:35-37 | a snippet is used as the description whole, however long |
| ResultExtraction.FallbackUntouched | extract_google_results.py:40-47 | the fallback is the container's text with every occurrence of the title and then of the link text removed, stripped after each step; with neither present it is the text stripped |
| ResultExtraction.Shorten | extract_google_results.py:50-51 | a fallback longer than 300 characters becomes its first 300 characters and "..." |
| ResultExtraction.FallbackBound | extract_google_results.py:38-51 | a fallback description is at most 303 characters long |
| ResultExtraction.ExtractAllResults | extract_google_results.py:69-85 | the records of all pages, merged by link |
| ResultExtraction.UniqueUrlsDistinct | extract_google_results.py:85 | after the merge no two records share a link |
| ResultExtraction.UniqueUrlsComplete | extract_google_results.py:85 | every link of the input is still present after the merge |
| ResultExtraction.UniqueUrlAt | extract_google_results.py:85 | the record kept for a link is the last one carrying it |
| ResultExtraction.UniqueUrlsOrder | extract_google_results.py:85 | the merged records come in the order their links first appear |
| FileWork.WithExtension | file_work.py:48-53 | the extension is appended only when the path does not already end with it |
| FileWork.DownloadFileSpec | file_work.py:37-73 | a download raises exactly on a timeout, an error or a non-200 status. It returns without writing exactly when only PDFs are wanted and the content type lacks "pdf". Otherwise the PDF extension is chosen when the content type mentions "pdf" or the link ends with ".pdf", and ".html" otherwise |
| FileWork.PdfBehindPageLink | file_work.py:50-53 | a page link saved as `<hash>.html` whose response is a PDF is written to `<hash>.html.pdf` |
| FileWork.DownloadWithRetries | file_work.py:75-84 | at most three attempts, stopping after the first that does not raise; the wrapper never raises |
| FileWork.SkipEndsRetries | file_work.py:44-81 | a skipped non-PDF response ends the retries as a success would |
| FileWork.MakeTasks | file_work.py:103-109 | one task per candidate, in order |
| FileWork.DownloadFilesFromReadyCandidates | file_work.py:86-109 | the download run, up to the start of the tasks |
| FileWork.FileDownloadRunSpec | file_work.py:90-109 | no task is started when no link is non-blank. Otherwise there is one task per such candidate, in order, saved as `downloads/<hash>.pdf` when the lower-cased link ends with ".pdf" and as `downloads/<hash>.html` otherwise |
| FileWork.ConvertFilesToText | file_work.py:119-151 | the conversion run over the listed download folder |
| FileWork.FileConversionSpec | file_work.py:124-147 | each write is `txt/<stem>.txt` for a listed file the glob matches, holding that file's text, read as a PDF exactly when its lower-cased suffix is ".pdf"; with only PDFs wanted, only ".pdf" files are converted |
| FileWork.FileConversionComplete | file_work.py:124-147 | every listed file the glob matches and that converts is written to `txt/<stem>.txt` with its text, whatever failed before it |
| Retry.WithRetries | file_work.py:75-84 | the loop stops after the first attempt that does not raise, or after the third, and returns the outcome of its last attempt; the same loop is at pdf_work.py:62-71 |
| Retry.AttemptsMadeSpec | file_work.py:77-84 | the loop makes `n` attempts exactly when `n` is one to three, every attempt but the last raised, and the last is the third or did not raise |
| Downloads.ConvertEach | pdf_work.py:116-124 | each listed file in turn; an exception on one file is logged and the loop goes on |
| Downloads.ConversionSource | file_work.py:133-151 | every write is one file's text, under that file's text path |
| Downloads.ConversionComplete | pdf_work.py:116-124 | every file that converts is written, whatever happened to the files before it |
| PdfWork.DownloadPdf | pdf_work.py:26-59 | the content is written exactly when the status is 200 and the content type holds "application/pdf"; otherwise the call raises |
| PdfWork.ContentTypeCaseSensitive | pdf_work.py:40 | the substring test itself is case-sensitive: a value "Application/PDF" would be refused. aiohttp lower-cases the media type before the test, so no response reaches it in that spelling |
| PdfWork.DownloadWithRetries | pdf_work.py:62-71 | at most three attempts, ending at the first accepted response; when all are refused the wrapper gives up without raising |
| PdfWork.MakePdfTasks | pdf_work.py:90-95 | one task per PDF candidate, saving `<hash>.pdf` under the folder |
| PdfWork.DownloadPdfsFromReadyCandidates | pdf_work.py:74-95 | the PDF download run, up to the start of the tasks |
| PdfWork.PdfDownloadRunSpec | pdf_work.py:78-95 | nothing is started, not even the folder, when no stripped, lower-cased link ends with ".pdf". Otherwise there is one task per such candidate, in order, saved as `pdf/<hash>.pdf` |
| PdfWork.ConvertPdfsToText | pdf_work.py:106-124 | the conversion run over the listed pdf folder |
| PdfWork.PdfConversionSpec | pdf_work.py:111-124 | every PDF that converts is written to `txt/<stem>.txt`, whatever failed before it |
| PdfWork.PdfConversionSound | pdf_work.py:111-124 | every write is `txt/<stem>.txt` for a listed ".pdf" file that converts, holding its text |
| Scheduler.TimeUntilNextRun | start.py:16-21 | the wait exists exactly for a valid hour and minute. It is in (0, one day], and exactly one day when now is the target time. For a target later today it is target − now |
| Scheduler.WaitLandsOnTarget | start.py:18-21 | waiting that long lands on hour:minute, and no shorter wait does |
| Scheduler.DefaultScheduleFromMidnight | start.py:53-54 | with the default schedule of 06:00, a runner started at midnight waits six hours |
| Paths.StemSuffixSplit | main.py:138 | stem and suffix split a name. The suffix is empty, or a dot followed by at least one character and no further dot |
| Paths.JoinPath | file_work.py:97-108 | `os.path.join`: an absolute name replaces the folder, and otherwise the result ends with the name |
| Text.StripEmptyIff | file_work.py:90 | a link strips to nothing exactly when it is all whitespace |
| Text.StripIdempotent | extract_google_results.py:42-47 | stripping twice is stripping once |
| Text.Lower | file_work.py:42 | the model's lower-casing is ASCII-only: it maps each character on its own and keeps the length, which Python's `lower` does not always do |
| Text.ReplaceAllAbsent | extract_google_results.py:42 | `replace` leaves a text without the pattern unchanged |
| Text.ReplaceAllRemovesEvery | ai_api_final.py:62 | no occurrence of the pattern survives `replace` when the replacement is non-empty and shares no character with it |
| Text.NatToString | main.py:138 | `str(n)` is a non-empty string of digits |

## Left out

- `is_duplicate` is not called anywhere in main.py: the pipeline sends every truthy result (main.py:62-66). The model keeps the two apart in the same way.
- DuplicateChecker.BudgetedFits: states the code, which keeps the oldest texts. The comment at duplicate_checker.py:94 says the oldest are dropped.
- FileWork.PdfBehindPageLink: the `<hash>.html.pdf` file it describes has stem `<hash>.html`. The analysis step then finds no candidate for it. The model states this naming and does not go on to the analysis.
- Text.Lower: lower-cases ASCII letters only. Python's `lower` also maps other characters, some to ASCII letters (the Kelvin sign becomes "k") and some to two characters (U+0130 becomes "i" and a combining dot). Every test that uses the model's `Lower` compares against "yes", ".pdf" or "pdf". No character lower-cases in Python to a string holding 'y', 'e', 's', 'p', 'd', 'f' or '.' unless it is that character or its ASCII capital, so these tests agree with Python's.
- Pipeline.ReadyMembers: ratings are integers. A model that returns a float or a string rating, which would compare differently or raise, is not modelled.
- Pipeline.QueriesToRun: `google: {query: null}` gives `[None]` in the source (main.py:95-96), and the model gives the built-in query instead. `queries` is taken to be a list; a YAML string there would be iterated character by character (main.py:93-96), which is not modelled.
- DuplicateChecker.RecentResults: times are whole epoch seconds. The source compares naive local datetimes built from float seconds (duplicate_checker.py:29, 42-43) and sorts by the float `st_mtime` (duplicate_checker.py:66, 74), so sub-second ordering is lost, and across a daylight-saving change the source's 48-hour window is 47 or 49 real hours. A base path that exists but is a file makes `iterdir` raise out of `is_duplicate` (duplicate_checker.py:85 is outside any `try`); the model cannot express that.
- PdfWork.Accepted: `contentType` is aiohttp's `resp.content_type`, the media type already lower-cased without parameters. aiohttp's parsing of the header is not part of this model.
- Pipeline.AnalyzeAllTxts: the Telegram sender is assumed to construct. When the bot token or chat ID is missing from both the config and the environment, `TelegramSender()` raises before the loop (main.py:51), so no file is analysed, `ready_candidates.json` is not rewritten and the run fails. The model always returns the updated list and the notices.
- Pipeline.DownloadRoute: `None` stands for a missing `download_type`. A key present with a null value, which Python sends to the page downloader, is not distinguished.
- FileWork.FileDownloadRunSpec: a candidate without `"url"` or `"hash"`, on which the loop raises a `KeyError`, is not modelled; candidates always carry both fields.
- ResultExtraction.ExtractResultsFromHtml: a container is given as its title, anchor, snippet text and full text already extracted. BeautifulSoup's parsing and `get_text` are not part of this model.
- Directory listings and globs (`iterdir`, `glob`) are inputs in the order the filesystem yields them. The filesystem itself is not modelled.
- Concurrency is sequentialised: `asyncio.gather`, the semaphore, `async_timeout` and the random sleeps between attempts are left out. The retry loop is modelled one attempt after another.
- `telegram_sender.py`, `google_scraper.js`, `google_scraper.py` and `sum.py` are not part of this model. Sending a notice is recorded as a `Notice` value, and the search step is given as the per-query folders.
- Pipeline.Notices: a `Notice` stands for the call to `send_filing_result`. That function sends nothing for a result that is empty or strips to "X" (telegram_sender.py:29), which is not part of this model. Such a result is still written into the candidate's entry.
- `random`, SHA-256, MD5, tiktoken, pdfminer and the JSON and YAML parsers are parameters. `load_config` and logging are left out, and configured values are parameters.
- The run hash (main.py:105-106), the combined folder's name and `pages_limit` are left out, because they only name folders or go to the scraper.
- Writing the output files is left out: `combined_results.json`, `ratings.json`, `ready_candidates.json` and the text files are the values the model returns.
- Scheduler.TimeUntilNextRun: works in whole microseconds of one day's time, not the floating-point seconds of `total_seconds()`. Daylight-saving changes are left out.
- The `run_daily_at` loop (start.py:23-49) and the subprocess it starts are left out. Its order, waiting before each run, is what `Scheduler.TimeUntilNextRun` feeds.
