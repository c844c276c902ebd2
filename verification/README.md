# br_preprocess claim pipeline — a Dafny model

This project models the decision logic of the HCFA (CMS-1500) claim pipeline
in Dafny. Three scripts are covered:

- `utils/map_to_fm.py` matches an extracted claim to a FileMaker order.
  Its parts are the patient-name key (`normalize_text`), the four-format
  date parser (`parse_date`), the CPT set of an order
  (`get_cpts_for_order`) and the per-claim decision inside
  `process_matches`: fail fast, candidate scan, CPT tie-break,
  enrichment. It also covers the listing filter and the file loop.
- `utils/llm_hcfa.py` post-processes the language-model answer. It
  removes the fence (`clean_gpt_output`), applies the `{` acceptance test,
  rewrites the charges (`fix_all_charges` / `clean_charge`), derives the
  output and archive keys, selects the `.txt` keys, and runs the loop with
  its error log.
- `utils/split_hcfa_batch.py` names the objects it stores. It covers the
  per-page keys `{run_date}/{batch:02d}_{page:03d}.pdf`, the 1-based batch
  and page numbering, the run date, and the archive key.

## How the model is organised

Each module is one `.dfy` file.

- `Base` defines `Option`.
- `Json` defines the decoded JSON value, Python truthiness and `dict.get`.
- `Text` holds the Python string operations the scripts use: `strip`,
  ASCII `upper`/`lower`/`isalnum`, `startswith`/`endswith`, `count`,
  `in`, `replace`, `os.path.basename`, `os.path.splitext`, decimal
  rendering and `:0Nd` padding.
- `NameKey` models `normalize_text`. Its key is an insertion sort of the
  kept characters, and it is proved equal to every other sorted
  permutation of those characters.
- `Dates` models `parse_date`: the four layouts, tried in order, with
  calendar validation. A date becomes a proleptic Gregorian day number, so
  the 14-day window is a difference of integers.
- `ClaimMatch` models the per-claim decision:
  - the candidate scan is a method with the source's nested loops and
    early exits;
  - the tie-break is a stable descending insertion sort, proved to select
    the first maximum;
  - enrichment is a `ClaimDoc` class whose field map is updated in place.
- `MatchBatch` models the listing filter and the file loop of
  `process_matches`. Each storage call becomes an `Action` value.
- `LlmOutput` models `utils/llm_hcfa.py`. `fix_all_charges` is an
  `ExtractDoc` class updated in place, and the run loop is a method proved
  equal to a specification function.
- `SplitKeys` models `utils/split_hcfa_batch.py`.

### Parameters standing for what the model cannot see

- The fuzzy scorers `token_sort_ratio` and `token_set_ratio` are
  functions into 0..100 (`Scorer`). The composite test `(a + b) / 2 >= 90`
  is stated as `a + b >= 180`, which is the same condition.
- The order table is a sequence of `Order` records. Their `DOS_List` cell
  is either a list of day numbers or the `NaN` that the left merge
  produces for an order without dated line items. The line items are a
  sequence of `LineItem`.
- The downloaded claim documents form a map from key to decoded JSON. A
  key missing from the map stands for a download or decoding failure.
- The language model's answer per key, `json.loads`, and the numeric
  rescaling of a `$` amount are all function parameters.
- The page count of each batch PDF and today's date are parameters.

### Exceptions

Every exception that the loops swallow and that the model's inputs can
cause is an explicit outcome in the model:

- `Decision.Raises` in the claim decision;
- `ScanRaises` in the candidate scan;
- `ExtractionError` in the extraction loop;
- `None` from the charge rewrite.

Failures of storage calls are not outcomes of the model (see "Left
out"). In the extraction loop, a failing language-model call or a text
file that is not valid UTF-8 ends the same way as an answer that fails
the `{` test: the key is logged, and nothing is uploaded or moved.

A non-empty but unparseable claim date is kept as `None` in the claim's
date list. Subtracting it from an order date raises. An order whose date
cell is `NaN` raises in the same way once its name score passes.

## Model

| member | source | states |
|---|---|---|
| NameKey.NormalizeText | utils/map_to_fm.py:40-46 | the key is sorted and a permutation of the alphanumerics of `upper(text)` |
| NameKey.NormalizeValue | utils/map_to_fm.py:40-43 | a falsy value gives "", a string gives its key, and any other truthy value raises (None) |
| NameKey.SortChars | utils/map_to_fm.py:46 | `sorted(chars)`: the result is non-decreasing and a permutation of the input |
| NameKey.InsertSorted | utils/map_to_fm.py:46 | inserting into a sorted string keeps it sorted |
| NameKey.InsertMultiset | utils/map_to_fm.py:46 | inserting adds exactly one occurrence of the character |
| NameKey.SortedUnique | utils/map_to_fm.py:46 | two sorted strings with the same characters are equal, so the sorted key is unique |
| NameKey.KeyCharsStrip | utils/map_to_fm.py:44 | `strip()` never changes which characters reach the key |
| NameKey.KeyCharsAlphabet | utils/map_to_fm.py:44-45 | key characters are upper-case letters and digits only |
| NameKey.NormalizeAnagram | utils/map_to_fm.py:40-46 | two names get the same key if and only if their key characters are the same multiset |
| NameKey.NormalizeIdempotent | utils/map_to_fm.py:40-46 | normalizing a key gives the key back |
| NameKey.NormalizeWordOrder | utils/map_to_fm.py:40-46 | swapping two words around any non-alphanumeric separator leaves the key unchanged |
| NameKey.NormalizeIgnoresPunctuation | utils/map_to_fm.py:45 | removing any non-alphanumeric character leaves the key unchanged |
| NameKey.NormalizeCaseInsensitive | utils/map_to_fm.py:44 | lower-casing or upper-casing the name leaves the key unchanged |
| NameKey.FirstLastVersusLastCommaFirst | utils/map_to_fm.py:40-46 | "First Last" and "LAST, first" get the same key |
| NameKey.KeyCharsAppend | utils/map_to_fm.py:44-45 | the key characters of a concatenation are the concatenation of the key characters |
| Dates.ParseDate | utils/map_to_fm.py:48-58 | a success is a valid calendar date produced by the first layout that accepts the text; the result is None exactly when the text is empty or no layout accepts it |
| Dates.FirstParse | utils/map_to_fm.py:53-58 | the first-success loop returns the result of the earliest accepting layout, or None when none accepts |
| Dates.TryLayout | utils/map_to_fm.py:52-55 | a layout only ever accepts a valid calendar date |
| Dates.LayoutsExclusive | utils/map_to_fm.py:52 | no text is accepted by two different layouts, so the order of the layouts never changes the result |
| Dates.RenderTryLayout | utils/map_to_fm.py:52-55 | each layout accepts its own rendering of every valid date and gives that date back |
| Dates.ParseRender | utils/map_to_fm.py:48-58 | `parse_date` inverts the rendering of every valid date in each of the four layouts |
| Dates.NextDayNumber | utils/map_to_fm.py:157 | consecutive calendar days have consecutive day numbers, so `.days` is a difference of day numbers |
| Dates.DaysInMonth | utils/map_to_fm.py:55 | month lengths follow the Gregorian calendar (28..31 days) |
| ClaimMatch.CptsForOrderExactly | utils/map_to_fm.py:100-103 | a code is in the order's CPT set if and only if some line item of that order has that non-null code, once stripped |
| ClaimMatch.PairScanFinds | utils/map_to_fm.py:155-167 | the date-pair loop reports a pair if and only if, before any unparsed claim date is reached, some claim date lies within 14 days of some order date |
| ClaimMatch.PairScanParsedNoRaise | utils/map_to_fm.py:155-157 | when every claim date parsed, the date-pair loop never raises |
| ClaimMatch.MatchDates | utils/map_to_fm.py:155-167 | the nested loop with `break` and `for ... else` computes the date-pair outcome |
| ClaimMatch.KeepExactly | utils/map_to_fm.py:145-163 | an order becomes a candidate if and only if its scores sum to at least 180, its date cell is a list, and a date pair within 14 days is reached; the candidate carries its two scores |
| ClaimMatch.ScanAppend | utils/map_to_fm.py:145-167 | scanning two runs of orders equals combining their scans, so each order contributes independently and in order |
| ClaimMatch.ScanSingle | utils/map_to_fm.py:145-167 | one order contributes no candidate, exactly one candidate, or an exception |
| ClaimMatch.ScanRaisesExactly | utils/map_to_fm.py:145-157 | the scan raises if and only if evaluating some order raises |
| ClaimMatch.ScanSound | utils/map_to_fm.py:144-167 | every candidate comes from an order that qualifies, and there are no more candidates than orders |
| ClaimMatch.ScanComplete | utils/map_to_fm.py:144-167 | every qualifying order's candidate is in the list |
| ClaimMatch.RaisingPrefix | utils/map_to_fm.py:145-157 | once the scan of a prefix raises, the whole scan raises |
| ClaimMatch.ScanParsedNoRaise | utils/map_to_fm.py:150-157 | with every claim date parsed and every order dated, the scan cannot raise |
| ClaimMatch.CollectCandidates | utils/map_to_fm.py:144-167 | the scan loop builds exactly the specified candidate list in scan order, or stops at the first exception |
| ClaimMatch.RankAll | utils/map_to_fm.py:178-183 | the enriched list pairs each candidate, in order, with the size of the overlap between its order's CPTs and the claim's CPTs |
| ClaimMatch.InsertDesc | utils/map_to_fm.py:185 | inserting after every element ranked at least as high keeps the list descending and adds exactly that element |
| ClaimMatch.SortDesc | utils/map_to_fm.py:185 | the stable sort by `(cpt_score, composite)` is descending and a permutation |
| ClaimMatch.FirstMaxIndex | utils/map_to_fm.py:185-186 | the index holds a maximum rank, and no earlier entry ranks as high |
| ClaimMatch.SortHeadIsFirstMax | utils/map_to_fm.py:185-186 | the head of the stable descending sort is the earliest maximum, so full ties go to scan order |
| ClaimMatch.SortHeadCandidate | utils/map_to_fm.py:178-186 | the winner is the candidate at the earliest maximum of `(cpt_score, composite)` |
| ClaimMatch.PickBest | utils/map_to_fm.py:178-186 | the enrichment loop plus the sort returns the earliest candidate with the maximal `(cpt_score, composite)` |
| ClaimMatch.ClaimName | utils/map_to_fm.py:131 | a missing `patient_info` gives the empty name; a dict `patient_info` gives its `patient_name`, empty when absent; the `.get` calls raise exactly when the document or its `patient_info` is not a dict |
| ClaimMatch.ClaimKey | utils/map_to_fm.py:131-132 | the claim key is the normalized patient name, or an exception |
| ClaimMatch.ServiceEntries | utils/map_to_fm.py:134-135 | a missing `service_lines` yields nothing and a list yields its items; iteration succeeds exactly for a missing value, a list, an empty string or an empty dict, and anything else raises |
| ClaimMatch.DayOf | utils/map_to_fm.py:134 | a claim date has a day number exactly when `parse_date` succeeds |
| ClaimMatch.ClaimDays | utils/map_to_fm.py:134-136 | the comprehension succeeds exactly when every entry is a dict whose truthy date is a string; unparseable dates are kept as None |
| ClaimMatch.DatedEntries | utils/map_to_fm.py:135-136 | the comprehension's `if` keeps exactly the dict entries with a truthy date |
| ClaimMatch.ClaimDaysExactly | utils/map_to_fm.py:134-136 | `dos_list` has one element per dated entry, in order, and each is `parse_date` of that entry's date |
| ClaimMatch.ClaimCpts | utils/map_to_fm.py:174-176 | the claim's CPT set holds exactly the stripped truthy `cpt_code` values; the comprehension raises exactly when a line is not a dict or a truthy code is not a string |
| ClaimMatch.Select | utils/map_to_fm.py:131-186 | a claim that does not raise is a dict with a readable name and service lines |
| ClaimMatch.FailFast | utils/map_to_fm.py:138-142 | an empty name key or an empty date list goes to unmapped, whatever the orders and the scorers |
| ClaimMatch.SelectWinner | utils/map_to_fm.py:144-186 | a winner is a candidate of the scan whose name scores sum to at least 180; with two or more candidates it is the earliest with the maximal `(cpt_score, composite)` |
| ClaimMatch.SingleCandidateWins | utils/map_to_fm.py:169-171 | exactly one candidate wins without any CPT computation |
| ClaimMatch.SameNameNearDateMatches | utils/map_to_fm.py:144-171 | one order with the same key scoring 100 and a date within 14 days is matched |
| ClaimMatch.SameNameFarDateNoMatch | utils/map_to_fm.py:150-217 | one order whose dates are all more than 14 days away is never matched, whatever its name score |
| ClaimMatch.NoCandidateNoMatch | utils/map_to_fm.py:144-217 | a named, dated claim for which no order survives the scan is not matched |
| ClaimMatch.SelectOrder | utils/map_to_fm.py:131-186 | the per-claim procedure computes the specified decision |
| ClaimMatch.WithOrder | utils/map_to_fm.py:190-191 | the enriched claim gains or overwrites exactly `Order_ID` and `filemaker_number` from the winning row; every other key is unchanged |
| ClaimMatch.ClaimDoc.RecordMatch | utils/map_to_fm.py:190-191 | the dict is updated in place to the enriched claim |
| MatchBatch.ClaimKeys | utils/map_to_fm.py:112-114 | a listed key is processed if and only if it ends in `.json` in any case, has exactly three `/`, and contains none of `mapped`, `unmapped`, `staging` |
| MatchBatch.ClaimKeysAppend | utils/map_to_fm.py:112-114 | the filter keeps listing order: the claim keys of a concatenated listing are those of the first part followed by those of the second |
| MatchBatch.ClaimKeysOne | utils/map_to_fm.py:112-114 | a single key is kept exactly when it passes the filter |
| MatchBatch.UnmappedContainsMapped | utils/map_to_fm.py:114 | the `unmapped` test is subsumed by the `mapped` test |
| MatchBatch.OutputsNeverListed | utils/map_to_fm.py:35-114 | keys under the mapped, unmapped and staging folders are never selected |
| MatchBatch.ListedKeysAreDirectChildren | utils/map_to_fm.py:34-113 | a selected key under the valid folder has no further `/`, so it is a direct child of that folder |
| MatchBatch.HandleFile | utils/map_to_fm.py:119-225 | a file is counted exactly when it has no match or has a match; it is audited exactly when it has a match; at most two storage calls are made; a file that cannot be read makes none |
| MatchBatch.Act | utils/map_to_fm.py:138-218 | an exception makes no storage call; a claim without name or dates, or without a match, is moved to the unmapped folder under its own name; a match uploads the claim with the winner's `Order_ID` and `filemaker_number` to the mapped folder, then moves the original there, and records the winner's audit |
| MatchBatch.HandleFileMoves | utils/map_to_fm.py:138-217 | a file is only moved, under its own name, to the mapped or the unmapped folder |
| MatchBatch.HandleFileAsWritten | utils/map_to_fm.py:188-225 | as written, only files without a match are counted, and no audit survives |
| MatchBatch.AuditCrashDropsMatches | utils/map_to_fm.py:198-225 | as written, the same storage calls are made, but the count differs exactly on matched files |
| MatchBatch.Batch | utils/map_to_fm.py:117-225 | each file is counted at most once and audited only when counted; every move takes a batch key to a folder that is never listed again |
| MatchBatch.CountedAsWritten | utils/map_to_fm.py:117-225 | the counter as written never exceeds the corrected count |
| MatchBatch.CountShortfall | utils/map_to_fm.py:117-225 | the counter as written falls short by exactly the number of matched files |
| MatchBatch.HandleOne | utils/map_to_fm.py:123-225 | the loop body, with in-place enrichment, produces the corrected step `HandleFile` (the code as written, with the crash at line 203, is `HandleFileAsWritten`) |
| MatchBatch.ActOn | utils/map_to_fm.py:138-217 | acting on a decision produces the specified storage calls, count and audit |
| MatchBatch.ProcessMatches | utils/map_to_fm.py:111-225 | the file loop over the filtered listing produces the corrected report `Batch` (the count as written is `CountedAsWritten`) |
| LlmOutput.CleanGptOutput | utils/llm_hcfa.py:74-78 | the result has no whitespace at either edge; unfenced text is only stripped |
| LlmOutput.FencedLength | utils/llm_hcfa.py:76 | a fenced text is at least as long as the two fences together |
| LlmOutput.FenceRoundTrip | utils/llm_hcfa.py:75-78 | a fenced body comes back stripped |
| LlmOutput.FencedNoEdge | utils/llm_hcfa.py:75-76 | a fenced text has no whitespace at its edges, so stripping keeps both fences |
| LlmOutput.OneFencePerCall | utils/llm_hcfa.py:76-77 | a doubly fenced body loses only the outer fence pair |
| LlmOutput.UnfencedOnlyStripped | utils/llm_hcfa.py:75-78 | text that does not start with the opening fence is only stripped |
| LlmOutput.FencedObjectAccepted | utils/llm_hcfa.py:98-101 | a fenced JSON object passes the `{` test and is handed on stripped |
| LlmOutput.AmountText | utils/llm_hcfa.py:39 | the amount text has no `$` or `,` and takes its characters from the charge |
| LlmOutput.CleanCharge | utils/llm_hcfa.py:35-47 | a non-string or a string without a leading `$` is returned unchanged, and so is a `$` string whose amount the rescaling cannot handle; otherwise the rescaled text is returned |
| LlmOutput.FixLine | utils/llm_hcfa.py:52-54 | a fixed line keeps its keys, and a non-dict line is unchanged |
| LlmOutput.FixLines | utils/llm_hcfa.py:52-54 | the number and order of service lines are kept and each is fixed; a failure comes from some line |
| LlmOutput.FixServiceLines | utils/llm_hcfa.py:51-54 | a list of lines keeps its length, and anything else is unchanged |
| LlmOutput.FixChargesKeepsOthers | utils/llm_hcfa.py:50-57 | the rewrite keeps the key set, and every field other than `service_lines` and `billing_info` is unchanged |
| LlmOutput.FixChargesLines | utils/llm_hcfa.py:51-54 | line i has its `charge_amount` cleaned when it has one, and otherwise it is unchanged |
| LlmOutput.FixChargesTotal | utils/llm_hcfa.py:55-56 | `total_charge` is cleaned only when `billing_info` contains it, and otherwise `billing_info` is unchanged |
| LlmOutput.FixLinesIdentity | utils/llm_hcfa.py:52-54 | lines without a string charge are left as they are |
| LlmOutput.FixLinesPrefix | utils/llm_hcfa.py:52-54 | a failure on an early line fails the whole rewrite |
| LlmOutput.FixLinesInPlace | utils/llm_hcfa.py:52-54 | the loop over the lines computes the specified rewrite |
| LlmOutput.FixLineInPlace | utils/llm_hcfa.py:53-54 | the loop body rewrites one line as specified |
| LlmOutput.ExtractDoc.FixAllCharges | utils/llm_hcfa.py:50-57 | the dict is rewritten in place to the specified result, and `ok` reports whether the rewrite raised |
| LlmOutput.OutputKey | utils/llm_hcfa.py:112-113 | the output key lies directly in the extracts folder and ends in `.json` |
| LlmOutput.OutputKeyOf | utils/llm_hcfa.py:112-113 | for `dir/name.ext`, the output key is the extracts prefix plus `name.json` |
| LlmOutput.PyTake | utils/llm_hcfa.py:88-89 | Python's `xs[:n]` for a non-negative or a negative `n` is a prefix of the stated length |
| LlmOutput.SelectTextKeys | utils/llm_hcfa.py:87-89 | only `.txt` keys are taken, in listing order; no limit or a zero limit takes all of them, and a positive limit takes that many |
| LlmOutput.ExtractFile | utils/llm_hcfa.py:95-120 | text failing the `{` test is an error; the file is extracted exactly when the text passes, decodes, and has its charges fixed without raising; an extraction uploads that rewrite under the output key and archives the input |
| LlmOutput.ExtractOne | utils/llm_hcfa.py:95-120 | the loop body, with the in-place charge rewrite, computes the specified outcome |
| LlmOutput.Outcomes | utils/llm_hcfa.py:91-129 | each key's outcome is the extraction of that key's answer |
| LlmOutput.Collect | utils/llm_hcfa.py:91-129 | every key gives one error line or one upload with its move |
| LlmOutput.Run | utils/llm_hcfa.py:87-129 | every selected key gives one error line or one upload with its move |
| LlmOutput.CollectLog | utils/llm_hcfa.py:122-128 | a key is logged if and only if its extraction failed |
| LlmOutput.CollectMoves | utils/llm_hcfa.py:111-119 | each move and upload belongs to one successfully extracted key |
| LlmOutput.CollectStep | utils/llm_hcfa.py:91-129 | one more key appends its upload and move, or its error line |
| LlmOutput.RunLogExactly | utils/llm_hcfa.py:122-128 | the log names exactly the keys that failed |
| LlmOutput.RunMovesArchive | utils/llm_hcfa.py:111-119 | each moved key succeeded, is moved to its archive key, and its upload goes to its output key |
| LlmOutput.ExtractAll | utils/llm_hcfa.py:91-135 | the extraction loop produces the specified run |
| LlmOutput.StoredLogAsWritten | utils/llm_hcfa.py:125-128 | as written, nothing is stored when no error occurs, and otherwise the stored log is the last error line alone |
| LlmOutput.LogUploads | utils/llm_hcfa.py:125-128 | each failure uploads a one-line file holding its error line to the log key, in loop order |
| LlmOutput.StoredAfter | utils/llm_hcfa.py:128 | after a sequence of uploads, a key holds nothing if no upload targeted it, and otherwise the content of the last upload that did |
| LlmOutput.StoredAfterLogUploads | utils/llm_hcfa.py:125-128 | uploading each error line over the log key leaves nothing when there was no error, and otherwise the last error line alone |
| LlmOutput.StoredLogLosesEarlierErrors | utils/llm_hcfa.py:125-128 | two failing keys leave only the second in the stored log |
| LlmOutput.StoredLog | utils/llm_hcfa.py:122-128 | the corrected stored log names exactly the logged keys |
| LlmOutput.StoredLogExactly | utils/llm_hcfa.py:122-128 | the corrected stored log names exactly the keys that failed |
| SplitKeys.PageKey | utils/split_hcfa_batch.py:47 | a page key lies in the run folder, ends in `.pdf`, and has a name of at least ten characters |
| SplitKeys.PageKeyName | utils/split_hcfa_batch.py:47 | the name is `pad2(batch) + "_" + pad3(page)` |
| SplitKeys.ParsePageKeyRoundTrip | utils/split_hcfa_batch.py:47 | batch and page are recovered from the key |
| SplitKeys.PageKeyInjective | utils/split_hcfa_batch.py:47 | for one run date and prefix, distinct (batch, page) pairs give distinct keys |
| SplitKeys.WideNumbersKept | utils/split_hcfa_batch.py:47 | padding is a minimum width: a batch number of two or more digits and a page number of three or more digits are written in full, never truncated |
| SplitKeys.RunDate | utils/split_hcfa_batch.py:65 | the run date is eight digits and parses back to today's date |
| SplitKeys.SlotsOrdered | utils/split_hcfa_batch.py:37-69 | pages are visited batch by batch, then page by page, strictly increasing |
| SplitKeys.SlotsExactly | utils/split_hcfa_batch.py:37-69 | (b, p) is visited if and only if 1 <= b <= number of batches and 1 <= p <= that batch's page count |
| SplitKeys.PageKeysExactly | utils/split_hcfa_batch.py:37-47 | a page key is produced if and only if its (batch, page) is visited |
| SplitKeys.RunPlan | utils/split_hcfa_batch.py:63-69 | one archive move per `.pdf` key |
| SplitKeys.RunPlanDistinct | utils/split_hcfa_batch.py:37-69 | no two uploads of a run share a key |
| SplitKeys.RunPlanPages | utils/split_hcfa_batch.py:37-69 | a run uploads the key of (b, p) if and only if b is a 1-based index among the `.pdf` keys and p is a 1-based page of that batch |
| SplitKeys.RunPlanArchives | utils/split_hcfa_batch.py:58-69 | a key is archived if and only if it is listed and ends in `.pdf` in any case |
| Text.Strip | utils/map_to_fm.py:44 | the result is the input between its leading and trailing whitespace, with no whitespace at either edge |
| Text.StripFrame | utils/llm_hcfa.py:75 | the input is the stripped text framed by whitespace on both sides |
| Text.StripIdempotent | utils/llm_hcfa.py:75-78 | stripping twice is stripping once |
| Text.Upper | utils/map_to_fm.py:44 | each character is upper-cased in place |
| Text.KeysEndingWith | utils/split_hcfa_batch.py:67 | the filter keeps exactly the keys whose lower-cased form ends with the suffix |
| Text.KeysEndingWithAppend | utils/split_hcfa_batch.py:67 | the filter keeps listing order: filtering a concatenation concatenates the filtered parts |
| Text.KeysEndingWithOne | utils/split_hcfa_batch.py:67 | a single key is kept exactly when its lower-cased form ends with the suffix |
| Text.ArchiveKeyOfListed | utils/llm_hcfa.py:118 | a key listed under the input folder (the same rewrite as utils/split_hcfa_batch.py line 58) moves to the same name under the archive folder |
| Text.ArchiveKeyOfArchived | utils/split_hcfa_batch.py:58 | a key already under the archive folder, which the input prefix also matches, gains a second `archived/` |
| Text.CountChar | utils/map_to_fm.py:113 | the count is zero exactly when the character is absent |
| Text.ReplacePrefixOnly | utils/split_hcfa_batch.py:58 | replacing a prefix that does not recur rewrites only the prefix |
| Text.Basename | utils/llm_hcfa.py:112 | the basename is the part after the last `/` |
| Text.StripExtensionOf | utils/llm_hcfa.py:112 | `splitext` removes exactly the last extension |
| Text.ZeroPad | utils/split_hcfa_batch.py:47 | `:0Nd` gives at least N digits, ends with the number's digits, and parses back to the number |
| Text.ParseNatToString | utils/split_hcfa_batch.py:47 | decimal rendering parses back to the number |

## Left out

- Storage and file I/O (`list_objects`, `download`, `upload`, `move`,
  `open`, `tempfile`, `os.remove`). Storage calls appear as action or
  report values. In utils/map_to_fm.py, a failed download is a key
  missing from the store. In utils/llm_hcfa.py the download at line 93
  sits outside the `try`, so a failed download ends the whole run rather
  than adding an error line. That model assumes every selected key
  downloads and leaves this abort out. utils/s3_utils.py is not part of
  this model: `upload` is taken to replace the object at its key
  (`LlmOutput.StoredAfter`).
- Storage calls that raise inside the loops' `try` blocks are not
  modelled: every `upload` and `move` is taken to succeed. In
  utils/map_to_fm.py (lines 141, 198-200 and 217), a failing `move` after the
  upload would leave the claim both in the mapped folder and in the input
  folder, with the file neither counted nor audited. In
  utils/llm_hcfa.py (lines 114 and 119), a failing `upload` or `move`
  logs the key, and the text file stays unarchived.
- `load_orders_to_dataframe` (pandas, pyarrow, s3fs). The order table and
  the line items are given as sequences. Dates of line items are already
  day numbers, and a `NaN` cell stands for an order without dated items.
- The internals of `fuzz.token_sort_ratio` and `fuzz.token_set_ratio`.
  They are parameters with range 0..100.
- `extract_data_via_llm` (OpenAI call), the prompt file and `json.loads`.
  They are parameters.
- utils/ocr_hcfa.py, utils/pdf_preview.py and main.py are not part of this
  model.
- Reading and splitting the PDF pages. The page count of each batch is a
  parameter.
- The clock. Today's date is a parameter of `SplitKeys.RunDate`.
- Console output (`print`).
- Overriding the prefixes through environment variables. The default
  prefixes are constants. The page key and the run plan take the output
  prefix as a parameter.
- LlmOutput.CleanCharge: the float arithmetic of `clean_charge` is not
  modelled. This covers dividing amounts of 10000 or more by 100 or 10 and
  `%.2f` formatting. It is a parameter returning the new text, or None
  when `float()` raises. Only the pass-through branches and the removal of
  `$` and `,` are stated.
- Dates.ParseDate: `datetime.strptime` is modelled with fixed-width fields
  (four-digit year, two-digit month and day). Other leniencies of
  strptime, such as one-digit months and days, are not modelled.
- NameKey.NormalizeText: `str.upper` and `str.isalnum` are modelled on
  ASCII only. Non-ASCII letters and digits are treated as not
  alphanumeric.
- MatchBatch.Act: a matched claim is uploaded, enriched, to the mapped
  key, and then the original is moved onto that same key
  (utils/map_to_fm.py:198-200). The model records both calls in that
  order. What `move` does to an object that already exists is not
  modelled: utils/s3_utils.py is not part of this model. If it
  overwrites, the mapped folder holds the original claim without
  `Order_ID` and `filemaker_number`.
- ClaimMatch.CptsForOrderExactly: the `str(cpt)` conversion at
  utils/map_to_fm.py:103 is not modelled, because CPT cells are taken to
  be strings already. A numeric CPT column would render as, for example,
  `99213.0` and never equal a claim's code.
- JSON numbers are integers (`Json.Num`). Floats, and the key order of
  written dicts, are not modelled.
- The text of exception messages in the error log is not modelled. A log
  line is the key that failed.
- The composite score stored in the audit record is not modelled. The
  two name scores are kept, and the composite is their mean.
- `os.remove` of local files in the `finally` blocks is not modelled.

## Findings

| source | as written | input that shows it | evidently intended | confidence | as-written member | corrected member |
|---|---|---|---|---|---|---|
| utils/map_to_fm.py:203 | `results.append(...)` names a list that is never defined. After a matched claim is uploaded and moved, the NameError goes to the exception handler, so `processed_files` skips every matched file and no audit record is kept | any claim with a single qualifying order, e.g. same key scoring 100 and a date within 14 days | collect the audit record and count the matched file | high (not executed) | MatchBatch.HandleFileAsWritten, MatchBatch.AuditCrashDropsMatches, MatchBatch.CountShortfall | MatchBatch.HandleFile, MatchBatch.Batch |
| utils/llm_hcfa.py:125-128 | each error is written to a fresh temporary file and uploaded over the same log object, so the stored log keeps only the last error of a run (given that `upload` replaces the object at its key) | two `.txt` keys whose answers are empty: both fail the `{` test, but the stored log names only the second | the stored log lists every failing key of the run | medium (not executed) | LlmOutput.StoredLogAsWritten, LlmOutput.StoredAfterLogUploads, LlmOutput.StoredLogLosesEarlierErrors | LlmOutput.StoredLog, LlmOutput.StoredLogExactly |
