# conspiracy-graph: a verified model of the pipeline core

The conspiracy-graph pipeline turns Reddit archive dumps into a weighted
knowledge graph. Each stage reads the previous stage's output file:

1. A compressed archive becomes extracted JSON lines. See
   `scripts/extract_data.py` and `data_extraction/submissions_extraction.py`.
2. Those lines are cleaned (`scripts/prep_data.py`).
3. The REBEL model turns each cleaned line into triples
   (`scripts/extract_entities/extract_entities.py`).
4. The triples' heads and tails are linked to Wikidata labels
   (`scripts/filter_entities/filter_entities.py`).
5. The linked triples are counted per pair of entities and normalised into a
   graph (`scripts/build_knowledge_graph/build_graph_data.py`).

This project models the deterministic logic of these stages in Dafny and
proves what the code promises:

- the boundary-safe line reader;
- record remapping and cleaning with batched writes;
- the REBEL marker parser;
- the Wikidata result selection;
- the two resumable, checkpointed drivers and their progress-file update;
- edge counting and normalisation.

Everything outside that logic is a parameter of the model:

- the Zstandard stream is the byte sequence it delivers;
- UTF-8 decoding, `json.loads` and `json.dumps` are functions;
- the model's predictions, the HTTP search and `fuzz.ratio` are functions.

Modules, one file each:

- `text.dfy` (`Text`): the Python string operations the code relies on.
  - `str.isspace`, `str.split()` and `str.split(sep)`.
  - `str.strip()`, `str.replace` and substring tests.
- `json.dfy` (`Json`): JSON values as Python sees them.
  - Truthiness, `str()` and `int()`.
  - Dicts built by assignment, in insertion order.
- `paths.dfy` (`Paths`): `os.path.split`, `splitext` and `join`, and each
  stage's output-path rule.
- `stream_reader.dfy` (`StreamReader`): `read_and_decode` and
  `read_lines_zst`, over a `Reader` class holding the stream and its position.
- `extraction.dfy` (`Extraction`): the line loop of `extract_data.process_file`.
- `submissions.dfy` (`Submissions`): the main loop of the submissions script.
- `cleaning.dfy` (`Cleaning`): `clean_comments` and `clean_submissions`.
- `triplets.dfy` (`Triplets`): `extract_triplets`.
- `progress.dfy` (`Progress`): the progress document, both versions of
  `update_progress_config`, and a `ProgressFile` class holding the document.
- `resume.dfy` (`Resume`): what the two resumable drivers share.
  - Skipping below the cursor.
  - Flushing every 25 or 100 lines.
  - Storing the line number.
- `entity_extraction.dfy` (`EntityExtraction`): `process_file` and the main
  loop of extract_entities.
- `resolver.dfy` (`Resolver`): `best_single_record_similarity`,
  `filter_wikidata_results` and the status dispatch of `search_wikidata`.
- `linking.dfy` (`Linking`): `process_and_link_entities` and the main loop of
  filter_entities.
- `graph.dfy` (`Graph`): `generate_raw_edge_counts` and `normalize_edges`.

Loops in the source are methods with loop invariants. Each method is proved
equal to a specification function, and the properties are lemmas about that
function. Python exceptions that the code does not catch are modelled as
outcomes, not as preconditions. For example, a line whose `json.loads` fails
in extract_entities ends the run with `LineFailed`.

Notable behaviour of the code, which the model keeps:

- **`<subj>` marker.** At `<subj>` the parser resets `subject` and `object_`
  and keeps `relation` (`extract_entities.py:132`).
- **Unparseable lines in the drivers.** Such a line is not counted as bad and
  skipped. In both resumable drivers it raises and ends the run
  (`extract_entities.py:254`, `filter_entities.py:232`).
- **Missing key paths.** Only the extract_entities version of
  `update_progress_config` never raises. The filter_entities version lets an
  exception from the walk propagate, for example `key in level` on a number.
- **Re-running after a stop.**
  - Both drivers reprocess the stored line itself (`line_number < current_line`).
  - extract_entities opens its output with `"w"`, so a resumed run discards
    everything written before.
  - filter_entities opens with `"a"`, so the stored line's records are
    appended a second time.
  - `Linking.ResumeRepeatsCursorLine` and
    `EntityExtraction.ResumeDropsEarlierLines` state this.
- **100 percent pruning.** `normalize_edges` raises `IndexError` for a
  pruning percentage of 100 or more, because the cutoff index is
  `len(weights)`. It also raises `ValueError` on an empty edge list.
- **Final progress update.** extract_entities performs its final flush and
  progress update only when the batch is non-empty. filter_entities always
  performs them, storing the last line number, or 1 for an empty file.

## Model

| member | source | states |
|---|---|---|
| Text.Words | scripts/prep_data.py:61 | every piece of `s.split()` is a non-empty run of non-whitespace characters |
| Text.WordsOfSpaced | scripts/prep_data.py:61 | words with whitespace gaps around them, and a non-empty gap between any two, split back into exactly those words |
| Text.SpacedWords | scripts/prep_data.py:61 | every string is the pieces of its `split()` with whitespace gaps around them and a non-empty gap between any two; with `WordsOfSpaced`, the pieces are exactly the maximal non-whitespace runs |
| Text.WordsOfWord | scripts/prep_data.py:61 | a string without whitespace splits into exactly itself |
| Text.SplitOn | scripts/extract_data.py:90 | `s.split("\n")` has at least one piece and no piece contains the separator |
| Text.SplitOnJoin | scripts/extract_data.py:90 | joining the pieces of `s.split(sep)` with `sep` gives `s` back |
| Text.SplitLinesReassemble | scripts/extract_data.py:90-99 | the pieces but the last, each followed by a newline, then the last piece, make up the split text |
| Text.TerminatedUnique | scripts/extract_data.py:90-99 | newline-free lines, each followed by a newline, plus a newline-free remainder, are determined by the text |
| Text.JoinLinesTerminated | scripts/prep_data.py:77 | `"\n".join(batch) + "\n"` is each record followed by a newline |
| Text.Strip | scripts/extract_entities/extract_entities.py:119 | `strip()` is never longer than its input, and is empty or starts and ends with a non-whitespace character |
| Text.StripMeans | scripts/extract_entities/extract_entities.py:119 | `strip()` is the slice of the input left between its leading and its trailing whitespace |
| Text.StripNonEmpty | scripts/extract_entities/extract_entities.py:157-159 | a string holding a non-whitespace character does not strip to "" |
| Text.HasSubstringMeans | scripts/extract_entities/extract_entities.py:42 | the computed `pat in s` on strings holds exactly when `pat` occurs at some index of `s` |
| Text.ReplaceAbsent | scripts/prep_data.py:24 | `s.replace(pat, rep)` leaves `s` alone when `pat` does not occur in it |
| Json.Get | scripts/extract_data.py:155 | `obj.get(key, None)` is the stored value, or null for a missing key |
| Json.Truncate | scripts/extract_entities/extract_entities.py:223 | `int()` of a float rounds toward zero |
| Json.DecimalRoundTrip | scripts/extract_entities/extract_entities.py:223 | `int(str(i)) == i`: a stored line number reads back as itself |
| Json.GroupedNumeralExample | scripts/extract_entities/extract_entities.py:223 | `int("1_000") == 1000`: an underscore between two digits is ignored |
| Json.MisplacedUnderscoreFails | scripts/extract_entities/extract_entities.py:223 | `int()` raises on a leading, doubled or trailing underscore |
| Json.Put | scripts/extract_data.py:164 | `record[k] = v` keeps an existing key's place and appends a new key |
| Json.PutLookup | scripts/extract_data.py:164 | after `record[k] = v`, `k` reads `v` and every other key reads as before |
| Json.PutDistinct | scripts/extract_data.py:164 | assignment keeps a dict's keys distinct |
| Paths.Split | scripts/prep_data.py:21 | `os.path.split`: the final component is the slash-free text after the last slash; the directory is the text before it, with its trailing slashes removed unless it consists only of slashes |
| Paths.SplitExt | scripts/prep_data.py:27 | `os.path.splitext` splits the path into two parts that concatenate back to it; the extension is empty or a dot followed by no dot or slash |
| Paths.Join | scripts/prep_data.py:30 | `os.path.join(a, b)` is `b` when `b` is absolute; otherwise it is `a`, then a slash unless `a` is empty or already ends with one, then `b` |
| Paths.JoinedName | scripts/prep_data.py:21-30 | splitting `join(d, b)` for a slash-free `b` gives back `b` as the final component, behind `d` or `d` and one slash |
| Paths.PreppedPathShape | scripts/prep_data.py:20-30 | the cleaning stage's output file is exactly `<stem>_prepped.jsonl`, `<stem>` being the input's file name without its extension, in the input's directory with `extracted_data` replaced by `prepped_data` (followed by at most the one joining slash) |
| Paths.ExtractedPathShape | scripts/extract_data.py:122-132 | the extraction stage's output file is exactly `<stem>.jsonl`, in the archive's directory with `raw_data` replaced by `extracted_data` (followed by at most the one joining slash) |
| Paths.SubmissionsJsonPathShape | data_extraction/submissions_extraction.py:165 | the submissions output is the input with its extension replaced by `.json` |
| StreamReader.Reader.constructor | scripts/extract_data.py:77 | a reader starts at the beginning of the decompressed stream |
| StreamReader.Reader.Read | scripts/extract_data.py:33 | `read(size)` returns the next `size` bytes, or the rest of the stream, and advances past them |
| StreamReader.DecodeFromSpec | scripts/extract_data.py:33-59 | `read_and_decode` returns the decoding of the carried bytes followed by every chunk it read, in order. A failure is raised only when that concatenation does not decode and the count exceeds the window. The count grows by `chunk_size` per read, even a short one |
| StreamReader.ExhaustedStreamFails | scripts/extract_data.py:33-53 | at the end of the stream, carried bytes that do not decode end in the error, with a count just past the window |
| StreamReader.ReadAndDecode | scripts/extract_data.py:18-59 | the bounded loop equals the recursive definition: same result, same reader position, `bytes_read` equal to `chunk_size` times the reads |
| StreamReader.CompleteLines | scripts/extract_data.py:90-99 | the yielded lines have no newline, and they with newlines plus the buffer make up the text |
| StreamReader.CompleteLinesUnique | scripts/extract_data.py:79-99 | the lines read do not depend on where the chunk boundaries fell |
| StreamReader.AppendChunk | scripts/extract_data.py:90-99 | one round of `read_lines_zst` keeps the invariant: yielded lines with newlines plus the buffer equal the concatenated decoded chunks |
| StreamReader.ReadLines | scripts/extract_data.py:62-102 | `read_lines_zst` yields exactly the complete lines of the decoded windows, in order. The text after the last newline is never yielded. It stops at the end of the stream or on a decoding error past the window |
| Extraction.BuildRecord | scripts/extract_data.py:146-164 | the mapping loop builds the record of the configured renaming |
| Extraction.RemapDistinct | scripts/extract_data.py:146-164 | the record's keys are distinct |
| Extraction.RemapKeys | scripts/extract_data.py:149-164 | the record's keys are exactly the configured new names |
| Extraction.RemapLastWins | scripts/extract_data.py:149-164 | a new name holds the value of the last mapping that names it |
| Extraction.RemapDistinctNames | scripts/extract_data.py:149-164 | with distinct new names, the record holds them in configuration order, each with its original key's value |
| Extraction.RemapKeysInOrder | scripts/extract_data.py:149-164 | with distinct new names, the record's keys are the new names in configuration order |
| Extraction.PermalinkRule | scripts/extract_data.py:155-161 | a truthy `permalink` gets the `https://www.reddit.com/` prefix; a falsy or missing one is stored as read |
| Extraction.PrefixStep | scripts/extract_data.py:138-178 | one more line adds its record when it parses to an object. It adds one bad line when it does not parse or lacks `created_utc` |
| Extraction.EveryLineAccounted | scripts/extract_data.py:138-178 | when no line parses to a non-object, every line is either written or unparseable, and the bad-line count lies between the unparseable lines and all lines |
| Extraction.ExtractLine | scripts/extract_data.py:141-175 | one line raises exactly when it parses to a non-object or its `created_utc` cannot be converted. Otherwise it adds its record when it parses to an object and counts as bad when it does not parse or lacks `created_utc`. On a raise, the records so far plus the line's own record are written, or `{}` for a non-object when there are no extraction keys |
| Extraction.ProcessLines | scripts/extract_data.py:138-182 | see the paragraph below this table |
| Extraction.ExtractFile | scripts/extract_data.py:105-186 | `process_file` writes to the derived path the records of the lines the reader yields, as `ProcessLines` states, including the `{}` written before a non-object line raises when there are no extraction keys. A decoding error is reported after those lines are processed |
| Submissions.SubmissionRecordShape | data_extraction/submissions_extraction.py:131-140 | every record has exactly the eight fields in order. Each of the seven fields other than `reddit_url` holds `obj.get` of its source key (`title`, `selftext` as `body`, `num_comments`, `ups`, `downs`, `score`, `created_utc`), so null for a missing key |
| Submissions.FieldsDistinct | data_extraction/submissions_extraction.py:131-140 | the eight field names are distinct |
| Submissions.RecordKeys | data_extraction/submissions_extraction.py:131-140 | the record's keys are the eight fields whatever the object holds |
| Submissions.RedditUrlAlwaysPrefixed | data_extraction/submissions_extraction.py:139 | `reddit_url` is the prefix followed by `str()` of the permalink: just the prefix for a missing key and the prefix then `None` for null, unlike the raw extractor |
| Submissions.ExtractSubmissions | data_extraction/submissions_extraction.py:118-169 | the dumped array holds one record per object line, in order, including objects without `created_utc`. `file_lines` counts every line and `bad_lines` the unparseable lines and missing timestamps |
| Submissions.SubmissionsFile | data_extraction/submissions_extraction.py:100-171 | the script dumps the records of the lines the reader yields to the `.json` path, or stops with the reader's decoding error |
| Cleaning.CommentVerdict | scripts/prep_data.py:44-68 | see the paragraph below this table |
| Cleaning.SubmissionVerdict | scripts/prep_data.py:133-150 | see the paragraph below this table |
| Cleaning.FullIsBatched | scripts/prep_data.py:73-86 | full batches of 100 are a valid batching of the output |
| Cleaning.CleanFile | scripts/prep_data.py:12-86 | see the paragraph below this table |
| Cleaning.CleanLines | scripts/prep_data.py:36-80 | the loop's written batches plus the pending list are the serialised kept records of the lines so far, and the pending list stays under 100 |
| Cleaning.CleanOne | scripts/prep_data.py:41-80 | one line either raises, changing nothing, or extends the written-plus-pending records by its serialised kept record |
| Cleaning.Accumulate | scripts/prep_data.py:68-80 | an append followed by the write of a full batch keeps the records in order and the pending list under 100 |
| Cleaning.Flush | scripts/prep_data.py:74-80 | a full batch is written as `"\n".join(batch) + "\n"` |
| Cleaning.FlushLast | scripts/prep_data.py:83-86 | the final write of the pending records completes the batching |
| Cleaning.CleanedStep | scripts/prep_data.py:39-68 | one more line adds its serialised record exactly when its verdict is keep |
| Triplets.Tokens | scripts/extract_entities/extract_entities.py:110 | the tokens walked are whitespace-free words |
| Triplets.ExtractTriplets | scripts/extract_entities/extract_entities.py:91-161 | the token loop returns the triples of the marker state machine over the tokens |
| Triplets.WalkKeepsTypes | scripts/extract_entities/extract_entities.py:112-154 | a triple is emitted only while `relation` holds a word, so every emitted type is non-empty |
| Triplets.TypesAreNonEmpty | scripts/extract_entities/extract_entities.py:112-159 | every triple `extract_triplets` returns has a non-empty `type` |
| Triplets.LeadingWordsIgnored | scripts/extract_entities/extract_entities.py:141-154 | words before the first marker do not change the result |
| Triplets.GroupWalk | scripts/extract_entities/extract_entities.py:112-154 | `<triplet> h <subj> t <obj> r` leaves `h` in `subject`, `t` in `object_` and `r` in `relation` |
| Triplets.OrbitsExample | scripts/extract_entities/extract_entities.py:112-159 | `<triplet> h <subj> t <obj> r` gives exactly the triple head `h`, type `r`, tail `t` |
| Triplets.EmptyHeadExample | scripts/extract_entities/extract_entities.py:123-132 | a `<subj>` after a type emits the triple and resets head and tail but not the type, so a following `<triplet>` emits a triple with empty head and tail |
| Progress.Follow | scripts/extract_entities/extract_entities.py:40-51 | a found path starts with a key of an object |
| Progress.FollowSplit | scripts/extract_entities/extract_entities.py:40-51 | walking `a + b` is walking `a`, then `b` from where it ends |
| Progress.ReplaceAt | scripts/extract_entities/extract_entities.py:54-64 | after the assignment the path reads the new value |
| Progress.ReplaceOther | scripts/extract_entities/extract_entities.py:54-64 | the assignment leaves every path that diverges from it unchanged |
| Progress.ReplaceAlong | scripts/extract_entities/extract_entities.py:40-64 | every object on the way keeps its keys |
| Progress.ReplaceTwice | scripts/extract_entities/extract_entities.py:54-64 | a second assignment to the same path overwrites the first |
| Progress.UpdateSets | scripts/extract_entities/extract_entities.py:31-74 | an update succeeds exactly when every key of the non-empty path is found. The path then reads the value and every diverging path, siblings included, is unchanged |
| Progress.UpdateOverwrites | scripts/extract_entities/extract_entities.py:54-74 | updating the same path twice equals updating it once with the second value |
| Progress.MissingKey | scripts/extract_entities/extract_entities.py:40-64 | a missing key on the way makes the update a no-op |
| Progress.ProgressFile.constructor | scripts/extract_entities/extract_entities.py:32-34 | the file holds the loaded document |
| Progress.ProgressFile.Traverse | scripts/extract_entities/extract_entities.py:40-51 | the walk's `in` tests and indexing give the path's specification |
| Progress.ProgressFile.UpdateQuietly | scripts/extract_entities/extract_entities.py:18-88 | the file holds the updated document, or the old one when a key is missing or anything raises |
| Progress.ProgressFile.UpdateOrRaise | scripts/filter_entities/filter_entities.py:35-85 | as above, but raises exactly when the walk raises |
| Resume.GatheredBelowStart | scripts/extract_entities/extract_entities.py:249-251 | lines below the cursor produce nothing |
| Resume.GatheredPrefix | scripts/extract_entities/extract_entities.py:243-280 | the output grows as lines are processed |
| Resume.GatheredSplit | scripts/extract_entities/extract_entities.py:243-280 | a run's output is the output of the lines before a point followed by a run from that point |
| Resume.GatheredRestart | scripts/extract_entities/extract_entities.py:243-251 | a run resumed at `c` gives the output of lines from `c` on, starting with line `c`'s |
| Resume.GatheredResume | scripts/filter_entities/filter_entities.py:214-229 | a stop after line `m` and a resumption at `m` give one full run's output with line `m`'s records repeated right after the first copy |
| Resume.FlushedBounds | scripts/extract_entities/extract_entities.py:286 | the last batch boundary is a multiple of the batch size less than one batch back |
| Resume.FlushedStep | scripts/extract_entities/extract_entities.py:286 | one more line moves the batch boundary only when its number is a multiple of the batch size |
| Resume.SkipLine | scripts/extract_entities/extract_entities.py:249-251 | a skipped line changes neither the output nor the stored line |
| Resume.TakeLine | scripts/extract_entities/extract_entities.py:280-304 | a processed line joins the batch, and on a multiple of the batch size the batch is written and the line stored |
| Resume.MarkAgain | scripts/extract_entities/extract_entities.py:298-301 | storing a line number replaces the one stored before |
| Resume.MarkedOther | scripts/extract_entities/extract_entities.py:298-301 | storing a line number leaves every diverging path alone |
| EntityExtraction.PredictionTriplets | scripts/extract_entities/extract_entities.py:274-280 | the triples of all predictions, in order |
| EntityExtraction.FromPredictionsAppend | scripts/extract_entities/extract_entities.py:274-280 | the triples of two runs of predictions are those of the first followed by those of the second |
| EntityExtraction.FromPredictionsPrefix | scripts/extract_entities/extract_entities.py:274-280 | the triples of the first `k` predictions are a prefix of the triples of all of them |
| EntityExtraction.FromPredictionsTypes | scripts/extract_entities/extract_entities.py:274-280 | every triple gathered from the predictions has a non-empty type |
| EntityExtraction.LineStep | scripts/extract_entities/extract_entities.py:254-280 | one line raises exactly when the stripped line does not parse to an object. Otherwise its triples all have a type; there are none for a falsy `text`, and for a truthy one the triples of every prefix of its predictions come first |
| EntityExtraction.FinalMarkBounds | scripts/extract_entities/extract_entities.py:286-325 | a completed run's stored line is at or after the cursor, the last line or a multiple of 25, and less than 25 lines before the end. With nothing stored, nothing was produced |
| EntityExtraction.ResumeDropsEarlierLines | scripts/extract_entities/extract_entities.py:237-251 | a full run's output is that of the lines before `c` followed by a run resumed at `c`, which starts with line `c`'s triples |
| EntityExtraction.ProcessFile | scripts/extract_entities/extract_entities.py:195-325 | see the paragraph below this table |
| EntityExtraction.ProcessLines | scripts/extract_entities/extract_entities.py:240-304 | the loop keeps written plus batch equal to the triples of the processed lines, written to the last boundary, and the stored line at the last boundary |
| EntityExtraction.ProcessOne | scripts/extract_entities/extract_entities.py:243-304 | one pass: skip, raise without changes, or add the line and flush on a multiple of 25 |
| EntityExtraction.AddLine | scripts/extract_entities/extract_entities.py:280-304 | a processed line's triples join the batch; every 25th line writes the batch and stores the line |
| EntityExtraction.ExtractEntities | scripts/extract_entities/extract_entities.py:364-386 | sources whose status on the loaded progress equals `True` are skipped. Every other source is processed in configuration order and then marked `True`; a status lookup that raises or a failed run ends the loop after the earlier runs completed and were marked, and leaves the status of the source it stopped at as loaded, so a later invocation processes that source again. A source loaded as done keeps its status, and every path outside the runs' `line` and `status` entries keeps its loaded value. Every run took its input from the configuration and wrote and stored what `ProcessFile` promises, measured from the loaded `line` entry of its source |
| EntityExtraction.MainStep | scripts/extract_entities/extract_entities.py:366-384 | one pass of the main loop: a status lookup that raises stops it, a source whose status equals `True` adds no run, and any other source adds its run, which stops the loop unless it completed, after the earlier runs completed and were marked. A pass that stops leaves its source's status as loaded, and every pass keeps what the loop leaves as loaded (`Framed`) |
| EntityExtraction.PendingStep | scripts/extract_entities/extract_entities.py:375-384 | the pass over a source that is not done adds its run; unless the run completed, the loop stops with `RunFailed` after the earlier runs completed and were marked, and the source's status is still the loaded one |
| EntityExtraction.MainLeaves | scripts/extract_entities/extract_entities.py:364-386 | however the loop ends, every run's source and input come from the configuration and it reported what `ProcessFile` promises, a source loaded as done keeps its status, and every path outside the runs' `line` and `status` entries keeps its loaded value |
| EntityExtraction.ExtractSource | scripts/extract_entities/extract_entities.py:375-384 | one pass over a source that is not done extends what the loop knows of its runs and what it leaves as loaded, and, when the run completes, the loop's invariant |
| EntityExtraction.FramedNext | scripts/extract_entities/extract_entities.py:375-384 | a run that touches only its own source's `line` entry, and its `status` entry only when it completes, keeps every other path and every failed run's status as loaded |
| EntityExtraction.DoneKept | scripts/extract_entities/extract_entities.py:369-372 | a source loaded as done, or whose status lookup raises, has no run, so its status is still the loaded one |
| EntityExtraction.SkipSource | scripts/extract_entities/extract_entities.py:369-372 | a done source adds no run |
| EntityExtraction.RecordSource | scripts/extract_entities/extract_entities.py:378-384 | a completed run followed by the status update extends the main loop's invariant |
| EntityExtraction.ProcessAndMark | scripts/extract_entities/extract_entities.py:375-384 | the run reads the configured input, writes the triples and stores the line `ProcessFile` promises for the source's `line` entry, and when it completes marks its own source `True`. A run that does not complete leaves its source's status as it was, so the next invocation processes it again. Every path outside the source's `line` and `status` entries keeps its value |
| Linking.LinkedTripletKeys | scripts/filter_entities/filter_entities.py:255-261 | a linked record has the five keys in order |
| Linking.LinkLineStep | scripts/filter_entities/filter_entities.py:232-263 | one line gives the linked record when head and tail both link, nothing otherwise, raises, or exits on a 403 |
| Linking.EmittedRecord | scripts/filter_entities/filter_entities.py:232-263 | an emitted record holds the original head, type and tail and two non-empty labels, each from the search results of its term |
| Linking.CeilBound | scripts/filter_entities/filter_entities.py:226 | a line number is below a float cursor exactly when it is below the cursor's ceiling |
| Linking.NonFiniteCursors | scripts/filter_entities/filter_entities.py:226 | a cursor of infinity skips every line, so nothing is appended and no line stops the run; NaN and minus infinity skip none, like a cursor of 1 |
| Linking.ProcessAndLink | scripts/filter_entities/filter_entities.py:199-311 | see the paragraph below this table |
| Linking.LinkLines | scripts/filter_entities/filter_entities.py:218-294 | the loop keeps written plus pending equal to the records of the processed lines, written to the last multiple of 100, and the stored line at that boundary |
| Linking.LinkOne | scripts/filter_entities/filter_entities.py:223-294 | one pass: skip, halt without changes (crash or exit), or add the line and flush on a multiple of 100 |
| Linking.AddLine | scripts/filter_entities/filter_entities.py:251-294 | a processed line's records join the batch; every 100th line writes it and stores the line, even when it is empty |
| Linking.ResumeRepeatsCursorLine | scripts/filter_entities/filter_entities.py:214-229 | with the output opened for appending, a resumed run appends the stored line's records a second time |
| Linking.FilterEntities | scripts/filter_entities/filter_entities.py:316-359 | sources whose status `is True` are skipped. Every other source is linked in configuration order and then marked `True`; a lookup that raises or a stopped run ends the loop after the earlier runs finished and were marked, and leaves the status of the source it stopped at as loaded, so a later invocation links that source again. A source loaded as done keeps its status, and every path outside the runs' `line` and `status` entries, the `path` entries included, keeps its loaded value. Every run read its input path and cursor from the loaded configuration and appended and stored what `ProcessAndLink` promises |
| Linking.MainStep | scripts/filter_entities/filter_entities.py:332-357 | one pass of the main loop: a status, path or line lookup that raises stops it, a source whose status `is True` adds no run, and any other source adds its run, which stops the loop unless it finished, after the earlier runs finished and were marked. A pass that stops leaves its source's status as loaded, and every pass keeps what the loop leaves as loaded (`Framed`) |
| Linking.FilterSource | scripts/filter_entities/filter_entities.py:336-357 | one pass over a source that is not done extends what the loop knows of its runs and what it leaves as loaded, and, when the run finishes, the loop's invariant |
| Linking.FramedNext | scripts/filter_entities/filter_entities.py:351-357 | a run that touches only its own source's `line` entry, and its `status` entry only when it finishes, keeps every other path and every stopped run's status as loaded |
| Linking.DoneKept | scripts/filter_entities/filter_entities.py:332-334 | a source loaded as done, or whose status lookup raises, has no run, so its status is still the loaded one |
| Linking.SkipSource | scripts/filter_entities/filter_entities.py:332-334 | a done source adds no run |
| Linking.RecordSource | scripts/filter_entities/filter_entities.py:351-357 | a finished run followed by the status update extends the main loop's invariant |
| Linking.LinkAndMark | scripts/filter_entities/filter_entities.py:336-357 | the run appends the records and stores the line `ProcessAndLink` promises for the input path and cursor, and when it finishes marks its own source `True`. A run that does not finish leaves its source's status as it was, so the next invocation links it again. Every path outside the source's `line` and `status` entries keeps its value |
| Resolver.Candidates | scripts/filter_entities/filter_entities.py:101-104 | the candidates start with the label |
| Resolver.Ratios | scripts/filter_entities/filter_entities.py:107 | the ratio of each candidate, in order |
| Resolver.MaxOf | scripts/filter_entities/filter_entities.py:107 | `max` is one of the values and at least every value |
| Resolver.BestSimilarity | scripts/filter_entities/filter_entities.py:88-109 | the similarity raises exactly when the record has no label |
| Resolver.BestSimilarityIsMax | scripts/filter_entities/filter_entities.py:101-107 | the best similarity is the ratio of the label or an alias and at least every other |
| Resolver.FirstStop | scripts/filter_entities/filter_entities.py:178-186 | the scan ends at the first result that has no label or scores 100 |
| Resolver.Scores | scripts/filter_entities/filter_entities.py:178-181 | the best similarity of each result, in order |
| Resolver.TopScore | scripts/filter_entities/filter_entities.py:174-193 | the highest score that meets the threshold and beats 0, or 0 |
| Resolver.Select | scripts/filter_entities/filter_entities.py:161-196 | a chosen label is the label of one of the results; a missing label only raises when a result lacks one |
| Resolver.FilterResults | scripts/filter_entities/filter_entities.py:161-196 | the scan with `best_match` and `highest_similarity` returns the selection |
| Resolver.ScanResult | scripts/filter_entities/filter_entities.py:178-193 | one pass of the scan either returns the selection or keeps its invariant |
| Resolver.SelectScanned | scripts/filter_entities/filter_entities.py:174-196 | a completed scan returns its `best_match` |
| Resolver.ScanStep | scripts/filter_entities/filter_entities.py:188-193 | a result replaces the best match only when it scores strictly higher and meets the threshold |
| Resolver.TopStep | scripts/filter_entities/filter_entities.py:188-193 | the strict comparison keeps the first result with the top score |
| Resolver.SelectStopped | scripts/filter_entities/filter_entities.py:183-186 | the first result scoring 100 is returned, whatever follows, and a missing label before it raises |
| Resolver.SelectBest | scripts/filter_entities/filter_entities.py:174-196 | see the paragraph below this table |
| Resolver.SelectThreshold | scripts/filter_entities/filter_entities.py:189 | raising the threshold keeps the choice or drops it |
| Resolver.TopScoreThreshold | scripts/filter_entities/filter_entities.py:189 | the top score under a higher threshold is the same score or 0 |
| Resolver.SearchOutcome | scripts/filter_entities/filter_entities.py:145-158 | exactly a 403 exits. A 200 gives its `search` list, or no results when the list is absent; any other status gives no results |
| Graph.LessTotal | scripts/build_knowledge_graph/build_graph_data.py:136 | string `<` is a strict total order |
| Graph.Ordered | scripts/build_knowledge_graph/build_graph_data.py:136 | `tuple(sorted([h, t]))` is the pair in either order, smaller first |
| Graph.OrderedSymmetric | scripts/build_knowledge_graph/build_graph_data.py:136 | (A, B) and (B, A) give the same key |
| Graph.Dedup | scripts/build_knowledge_graph/build_graph_data.py:141-145 | the dict's keys are the keys seen, each once |
| Graph.EdgesOf | scripts/build_knowledge_graph/build_graph_data.py:141-145 | one edge per distinct key, in first-occurrence order, with its count |
| Graph.CountedSnoc | scripts/build_knowledge_graph/build_graph_data.py:139 | `edge_counts[key] += 1` keeps the dict in step with the keys seen |
| Graph.CountedEdges | scripts/build_knowledge_graph/build_graph_data.py:142-145 | the comprehension over the dict gives the edge list |
| Graph.RawEdgeCounts | scripts/build_knowledge_graph/build_graph_data.py:111-147 | the counting loop and comprehension give the edges of the non-self-loop rows |
| Graph.RawEdgeCountsMeaning | scripts/build_knowledge_graph/build_graph_data.py:122-145 | see the paragraph below this table |
| Graph.PairsOrdered | scripts/build_knowledge_graph/build_graph_data.py:131-136 | every counted key has head < tail, self-loops being skipped |
| Graph.DedupCountsAll | scripts/build_knowledge_graph/build_graph_data.py:122-145 | the counts of the distinct keys add up to the number of counted rows |
| Graph.SwappedPairExample | scripts/build_knowledge_graph/build_graph_data.py:131-145 | rows (A, B), (B, A), (C, C) give the single edge (A, B) of weight 2 |
| Graph.Min | scripts/build_knowledge_graph/build_graph_data.py:171 | `min` is one of the weights and at most every weight |
| Graph.Max | scripts/build_knowledge_graph/build_graph_data.py:172 | `max` is one of the weights and at least every weight |
| Graph.Scale | scripts/build_knowledge_graph/build_graph_data.py:182 | `(w - lo) / (hi - lo)` maps [lo, hi] into [0, 1], lo to 0 and hi to 1 |
| Graph.ScaleMonotone | scripts/build_knowledge_graph/build_graph_data.py:182 | scaling keeps the order of weights |
| Graph.DivMonotone | scripts/build_knowledge_graph/build_graph_data.py:218 | division by a positive span keeps order |
| Graph.Normalize | scripts/build_knowledge_graph/build_graph_data.py:175-182 | one normalised weight per weight |
| Graph.NormalizeRange | scripts/build_knowledge_graph/build_graph_data.py:175-182 | normalised weights lie in [0, 1] and keep the order; unless all are equal, some weight becomes 0 and some 1 |
| Graph.NormalizeMonotone | scripts/build_knowledge_graph/build_graph_data.py:175-182 | a weight at most another normalises to at most the other |
| Graph.Sort | scripts/build_knowledge_graph/build_graph_data.py:193 | `sorted` is an ascending permutation |
| Graph.Above | scripts/build_knowledge_graph/build_graph_data.py:198-200 | the filter keeps at most the edges it is given |
| Graph.AboveExactly | scripts/build_knowledge_graph/build_graph_data.py:198-200 | an edge survives exactly when its normalised weight is strictly above the cutoff |
| Graph.AboveCount | scripts/build_knowledge_graph/build_graph_data.py:192-200 | survivors plus weights at most the cutoff are all edges |
| Graph.AboveIndices | scripts/build_knowledge_graph/build_graph_data.py:198-200 | survivors are a subsequence of the edges, in their order |
| Graph.SurvivorIndices | scripts/build_knowledge_graph/build_graph_data.py:190-200 | likewise after the percentile pruning |
| Graph.CutoffIndexInRange | scripts/build_knowledge_graph/build_graph_data.py:192-196 | the cutoff index is inside the list exactly when the percentage is below 100 |
| Graph.AboveCutoff | scripts/build_knowledge_graph/build_graph_data.py:190-200 | pruning at sorted index `i` removes at least `i + 1` edges |
| Graph.Renormalized | scripts/build_knowledge_graph/build_graph_data.py:203-225 | one output edge per survivor |
| Graph.RenormalizedRange | scripts/build_knowledge_graph/build_graph_data.py:203-218 | renormalised weights lie in [0, 1] |
| Graph.KeepAbove | scripts/build_knowledge_graph/build_graph_data.py:198-200 | the comprehension keeps the edges above the cutoff |
| Graph.Renormalize | scripts/build_knowledge_graph/build_graph_data.py:203-225 | the key-replacement loop gives each survivor its `edge weight` and keeps head and tail |
| Graph.NormalizeEdges | scripts/build_knowledge_graph/build_graph_data.py:150-241 | `normalize_edges` computes the specification, or its failure |
| Graph.NormalizeFails | scripts/build_knowledge_graph/build_graph_data.py:171-196 | it fails exactly on an empty list, or for a positive percentage of 100 or more |
| Graph.NormalizeMeaning | scripts/build_knowledge_graph/build_graph_data.py:150-225 | output weights lie in [0, 1]. A non-positive percentage keeps every edge; a positive one removes at least the cutoff index plus one |
| Graph.NormalizeKeepsOrder | scripts/build_knowledge_graph/build_graph_data.py:185-225 | the output is a subsequence of the input edges, with heads and tails kept, in order, and ranked as their raw weights |
| Graph.ThreeEdgesUnpruned | scripts/build_knowledge_graph/build_graph_data.py:165-225 | raw weights 10, 1 and 5 at 0 percent give weights 1, 0 and 4/9 |
| Graph.ThreeEdgesPruned | scripts/build_knowledge_graph/build_graph_data.py:190-225 | the same at 50 percent keep only the first edge, with weight 1 |

Several rows point here because their contracts are too long for one cell.

- **Extraction.ProcessLines.** The per-line loop ends in one of two ways.
  - It completes. Then no line raised, the records written are those of the
    object lines in order, `file_lines` equals the number of lines and
    `bad_lines` the bad ones.
  - It stops at the first line that raises. That line is not an object, or
    its timestamp cannot be converted, or it completes a multiple of 100000 lines
    before any timestamp was seen. The records of the lines up to and including it were
    written. A non-object line is written as `{}` when there are no extraction
    keys, since the mapping loop then never touches it.
- **Cleaning.CommentVerdict.** A comment is kept unchanged exactly when its
  author is not AutoModerator and its body is a string, neither
  `[deleted]` nor `[removed]`, with three or more words. It raises exactly
  when `author` is missing, or when the author is not AutoModerator and
  `body` is missing or not a string.
- **Cleaning.SubmissionVerdict.**
  - A submission is dropped exactly when both its title and body have fewer
    than three words.
  - It raises on a missing key or a non-string title, or on a non-string
    body when the title is short.
  - A kept submission is unchanged, except that a body in the eight deleted
    markers becomes null.
- **Cleaning.CleanFile.** The output goes to the prepped path, written in
  batches of 100 and a last shorter batch. On completion the file holds the
  serialised kept records in input order. On a raise, only full batches
  have been written, less than 100 records short of the records so far.
- **EntityExtraction.ProcessFile.**
  - A cursor that `int()` rejects raises before anything is written.
  - Otherwise the output gets the triples of the lines from the cursor on,
    written up to the last multiple of 25 when a line raises.
  - The stored line is the last boundary that was not skipped, or the last
    line after a final flush.
  - No other path of the progress document changes.
- **Linking.ProcessAndLink.**
  - A non-numeric cursor raises at the first line.
  - A cursor of infinity skips every line. NaN and minus infinity skip none.
  - Otherwise the records of the lines from the cursor on are appended,
    up to the last multiple of 100 when a line crashes or exits.
  - The stored line is the last line, or 1 for an empty file, after a full
    run. It is the last boundary reached after a halt.
  - No other path changes.
- **Resolver.SelectBest.** When every result has a label and none scores
  100, a label is chosen exactly when some score qualifies. The chosen
  label then belongs to a result whose score qualifies, is the highest
  qualifying score, and is strictly above every earlier score, so the first
  of equal scores wins.
- **Graph.RawEdgeCountsMeaning.**
  - Every edge has head < tail.
  - Each unordered pair appears once, and exactly the pairs of non-self-loop
    rows appear.
  - Each weight is the pair's positive count.
  - The weights add up to the number of non-self-loop rows.

## Left out

- The Zstandard decompressor (RFC 8878) and `file_handle.tell()` byte
  offsets. The stream is the byte sequence it delivers.
- UTF-8 decoding (RFC 3629). Decoding is a parameter. `ReadLines` requires
  that only the empty byte string decodes to the empty text, which UTF-8
  satisfies. Without that, `read_lines_zst` would not stop.
- `ReadAndDecode` requires a positive chunk size. The source always passes
  2**27.
- JSON parsing and serialisation (RFC 8259). Both are parameters. A float's
  `str()` is carried with its value.
- Logging, except where a log line raises. The 100000-line progress log
  formats `created` and raises while no line had a timestamp, and the model
  keeps that crash.
- `datetime.fromtimestamp` range errors. Only a missing key and a failed
  `int()` are distinguished.
- File opening, seeking and truncation. Each stage's writes are a sequence of
  strings or records. A progress update loads and saves the whole document.
- The extracted file's lines are given as a sequence.
- The REBEL tokenizer, the model and device selection (`prep_model_inputs`).
  The decoded predictions for a text are a parameter.
- The HTTP mechanics of `search_wikidata` (URL, headers, timeout). A search
  is a parameter returning a status and an optional `search` list. A 403
  ends the run as an `Exit` outcome.
- `fuzz.ratio`. It is a parameter into 0..100.
- `Resolver.Entry`: labels and aliases are strings. A non-string label or
  alias, and a non-object search body, are not modelled. Neither is
  `"aliases": null`, where `record.get("aliases", [])` returns None and
  the list concatenation raises TypeError (filter_entities.py:101-104), nor a
  200 body with `"search": null`, whose None result raises TypeError when
  `filter_wikidata_results` iterates it (filter_entities.py:145-147 and
  178).
- `ingest_data`, `output_data` and `export_gephi_csv`. These are directory
  listing, file writes and pandas data frames. The node count that
  `normalize_edges` only logs is not modelled either.
- Floating-point rounding in `normalize_edges`. Weights are exact reals.
  `int(len * P / 100)` is integer division, which agrees for the
  non-negative operands used.
- `normalize_edges` copies its input dicts so that the caller's list is not
  mutated. The model works on values, so the input is unchanged by
  construction and no aliasing is modelled.
- `Graph.RawEdgeCounts`: a row missing `linked_head` or `linked_tail` would
  raise `KeyError`. The model's rows always carry both.
- `Resume.FlushedStep`: stated for the two batch sizes the drivers use, 25
  and 100, not for an arbitrary size.
- `Extraction.BuildRecord`: a mapping is one (original, new) pair. An empty
  mapping in `extraction_keys`, where `next(iter(mapping.items()))` raises
  an uncaught StopIteration and ends the run (extract_data.py:152), cannot
  be expressed.
- `EntityExtraction.ExtractEntities`: takes the configuration as the list of
  its (source, path) pairs.
- Json.IntOf: a string is read as ASCII digits with single underscores between
  them. Python's `int()` also accepts other Unicode decimal digits, which the
  model treats as not a number.
- scripts/utility/query_wikidata.py and scripts/utility/gpu_validation.py are
  not part of this model. The first is a manual debugging script duplicating
  the selection logic; the second prints CUDA availability.
