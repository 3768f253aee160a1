# A verified model of the grading and ingestion logic of `diplomski`

`diplomski` is a retrieval-augmented grading system that runs alongside Moodle. It has two halves.

**Ingestion** turns PDF lecture material into a FAISS vector store. It does the following:

- cleans the extracted text (`ocisti_tekst`);
- classifies a PDF as slides or a document (`proveri_poreklo_pdf`, `main_chack_pdf`);
- has a language model cut the text into logical chunks (`get_ai_chunks`), using a window of neighbouring chunks and the names of the images each chunk mentions;
- turns the model's JSON reply into embedding records (`object_parser`);
- tags every document with its lesson and subject (`process_documents` and `main` in `populate_database.py`, and `main` in `database_filler/start_population.py`).

**Grading** answers HTTP requests. It does the following:

- `/pitanje` answers a question from retrieved context;
- `/proveri-odgovor` in `main.py` has a model grade an answer and splits the reply at the markers `OCENA:` and `OBJAŠNJENJE:`;
- the richer `/proveri-odgovor` in `database_filler/main.py` works in stages:
  - it serves a time-limited cache;
  - it runs a quick triage whose verdict of 0 or 5 is final;
  - otherwise it builds an equal-weight checklist and grades against it, mapping points to a band from 1 to 4;
- a bonus adjuster (`ai_backend/bonus.py`) adds 10 or 20 points to a parsed evaluation, up to a cap of 100, and rewrites the evaluation in place.

The model is one Dafny module per source file, plus small modules for the parts of Python the code relies on:

| module | models |
|---|---|
| `Bonus` (bonus.dfy) | `ai_backend/bonus.py`: a class `EvaluationDocument` whose `root` is the JSON tree the adjuster mutates |
| `Evaluation` (evaluation.dfy) | `database_filler/main.py`: pure functions for the stages, and a class `EvaluationService` holding the cache |
| `AnswerCheck` (answer_check.dfy) | `main.py`: the verdict parser and both routes |
| `EmbeddingRecords` (embedding_records.dfy) | `diplomski/populate_vector_database/dto.py` |
| `TextCleaner` (text_cleaner.dfy) | `ocisti_tekst` in `database_filler/populate_vector_database/util_functions.py` |
| `PdfOrigin` (pdf_origin.dfy) | `diplomski/populate_vector_database/is_pdf_or_pp.py` |
| `AiChunks` (ai_chunks.dfy) | `diplomski/populate_vector_database/ai.py` |
| `PopulateDatabase` (populate_database.dfy) | `populate_database.py`: a class `Document` whose `metadata` dict is updated in place |
| `StartPopulation` (start_population.dfy) | `database_filler/start_population.py`, with the length guard of `diplomski/vector_db_manager.py` |
| `PyStrings`, `PosixPath`, `PyJson`, `PyNumbers`, `Wrappers` | `str` methods, `posixpath`, dicts and JSON values, Python's `round`/`min`, `Option` |

Some shared conventions:

- **JSON values** are a datatype.
  - A dict is a list of pairs in insertion order, as a Python dict keeps them.
  - Numbers are exact hundredths.
  - `bool` takes part in comparisons and arithmetic as Python lets it.
- **Exceptions** are `None` or an error constructor. The model follows each `try` block to the statement that raises.
  - The bonus adjuster really does write the validation block before a later write into the result block can raise, and the model keeps that.
- **Oracles.** The language models, `json.loads`, `str()` of non-string values, `float()`, the vector search, the PDF loaders and the text extraction are function parameters. The clock is a parameter too.
- **Retry loops.** A retry loop that never ends is modelled through the finite list of replies the oracle gives. When the list runs out without a usable reply, the model reports that the source would still be retrying.

Behaviour of the code worth noting:

- The adjuster writes `round(final)`, a 0–100 score, into `ocena_numericka`. It does not recompute the 1–4 band.
- `min(prelim + bonus, 100)` lowers a preliminary score above 100. So the final score rises only when the preliminary score is below 100 (`Bonus.FinalScore`).
- Running the adjuster twice does not double any score. But it does append the bonus sentence to a string summary a second time (`Bonus.ReapplyKeepsScores`).
- The bonus justification texts say "5 poena" while adding 10. They are kept verbatim.
- No `/proveri-odgovor` handler calls the adjuster, so the modelled handlers do not apply it.

## Model

| member | source | states |
|---|---|---|
| Bonus.TallyTotal | ai_backend/bonus.py:27-34 | every graded item lands in exactly one of the three counters, so they sum to the number of items |
| Bonus.TallyAppend | ai_backend/bonus.py:27-34 | counting a concatenation adds the counts per category, so the tally does not depend on how the items are split |
| Bonus.BonusPoints | ai_backend/bonus.py:37-51 | the bonus is 0, 10 or 20; it is 0 iff condition A (other < 2) fails, and 20 iff condition B (A and fully ≥ mostly) holds |
| Bonus.CountCategories | ai_backend/bonus.py:27-34 | the counting loop succeeds iff the items are iterable and all dicts; then it gives the tally in which only the exact strings `potpuno_tačan` and `uglavnom_tačan` escape "other" |
| Bonus.ComputeBonus | ai_backend/bonus.py:37-51 | the condition-by-condition accumulation gives the bonus points and the justification of the last condition that held |
| Bonus.BonusPlan | ai_backend/bonus.py:8-64 | the reads and checks before any write; a plan exists only for a dict document |
| Bonus.AtSteps | ai_backend/bonus.py:10-14 | a read along a path of dict keys is a chain of single `d[key]` steps |
| Bonus.EvaluationDocument.constructor | ai_backend/bonus.py:3 | the document holds the parsed evaluation it is given |
| Bonus.EvaluationDocument.ApplyBonus | ai_backend/bonus.py:3-81 | the in-place update leaves the document as `BonusOutcome` of the old one, in every case including the caught failures |
| Bonus.EvaluationDocument.PlanBonus | ai_backend/bonus.py:8-64 | the checks on the current document decide to write exactly when `BonusPlan` has a plan, and deliver that plan |
| Bonus.EvaluationDocument.WriteBonus | ai_backend/bonus.py:61-74 | the writes, in source order, leave exactly `WriteBack` of the old tree; writes into a fresh default block are lost |
| Bonus.NoBonusNoChange | ai_backend/bonus.py:18-20 | with an empty item list, or with two or more items outside both accepted categories, the document comes back unchanged |
| Bonus.FinalScore | ai_backend/bonus.py:61-64 | the capped score is never above 100; it is either 100 or the preliminary score plus the bonus, and it exceeds a preliminary score below 100 |
| Bonus.AppliedPlan | ai_backend/bonus.py:10-64 | a document with dict blocks, a non-empty list of item dicts that earns a bonus and a numeric preliminary score (default 0) is planned with the capped score, the justification and the bonus |
| Bonus.ResultWritesRead | ai_backend/bonus.py:70-74 | the result block reads back round-half-even of the score as a number and as "n/100"; the summary is appended to only when present; every other key reads as before |
| Bonus.ValidationWritesRead | ai_backend/bonus.py:67-68 | both validation writes read back, no other key changes, and writing twice is writing once |
| Bonus.WriteBackReads | ai_backend/bonus.py:13-14 | what the writes leave at each top-level key: the evaluation is rewritten only when its validation block was present and a dict, and the result only when present and a dict |
| Bonus.ValidationWritten | ai_backend/bonus.py:67-68 | the validation block of a document with a bonus holds the capped score and the justification, even when a later result write raises |
| Bonus.ResultWritten | ai_backend/bonus.py:70-74 | with a result block present, it shows the rounded score as a number and as "n/100", and a string summary gains the bonus sentence |
| Bonus.OnlyScoreFieldsChange | ai_backend/bonus.py:61-81 | every key other than the five written ones reads as before, at every level, and a result entry that is not a dict is left alone |
| Bonus.KeptAtTop | ai_backend/bonus.py:61-74 | top-level keys other than the evaluation and the result are untouched |
| Bonus.KeptInEvaluation | ai_backend/bonus.py:61-74 | keys of the evaluation other than the validation block are untouched |
| Bonus.KeptInValidation | ai_backend/bonus.py:67-68 | validation keys other than the score and the justification are untouched |
| Bonus.KeptInResult | ai_backend/bonus.py:70-74 | result keys other than the two scores and the summary are untouched |
| Bonus.ReapplyKeepsScores | ai_backend/bonus.py:61-74 | a second run leaves the validation block and both result scores as the first run left them, but appends the bonus sentence to a string summary again |
| Evaluation.Band | database_filler/main.py:96-105 | the grade for any points is in 1..4 |
| Evaluation.BandMonotone | database_filler/main.py:96-105 | more points never give a lower grade |
| Evaluation.BandThresholds | database_filler/main.py:98-105 | the grade is 4 iff points ≥ 65, at least 3 iff points ≥ 39, and at least 2 iff points ≥ 20 |
| Evaluation.Suggestions | database_filler/main.py:68-71 | no `suggestedAnswer`, or anything but a list under it, gives no names; a list gives `SuggestionNames` of its items |
| Evaluation.SuggestionNamesMembers | database_filler/main.py:71 | a value is among the names iff some suggestion is a dict whose `name` is that truthy value |
| Evaluation.SuggestionNames | database_filler/main.py:68-71 | the names kept are never more than the suggestions, and all of them are truthy |
| Evaluation.SuggestionNamesAppend | database_filler/main.py:71 | filtering a concatenation concatenates the filtered parts, so order is kept and each element is judged alone |
| Evaluation.SuggestionNamesSingle | database_filler/main.py:71 | a dict with a truthy `name` contributes that name, and anything else contributes nothing |
| Evaluation.TagRun | database_filler/main.py:132 | the leading `[a-z-]*` run of the fence tag is maximal |
| Evaluation.OpenFenceLength | database_filler/main.py:132 | the opening fence match lies within the reply |
| Evaluation.FencedOpening | database_filler/main.py:132 | an opening "```tag\n" is recognised with its full length |
| Evaluation.CleanFenced | database_filler/main.py:181 | a fenced body comes back exactly, whatever it contains |
| Evaluation.CleanUnfenced | database_filler/main.py:181 | a stripped reply with no fence is decoded as it is |
| Evaluation.NoticesNotBlank | database_filler/main.py:166-173 | both fallback context notices are non-blank |
| Evaluation.SelectContext | database_filler/main.py:161-173 | the context is never blank: the notices for an exception, for a non-list and for an empty or blank join, else the rendered results joined by "\n\n---\n\n" |
| Evaluation.ContextOrder | database_filler/main.py:162-164 | the joined context starts with the first result, then the separator, then the rest in search order |
| Evaluation.Share | database_filler/main.py:190 | `round(100/n, 2)` in hundredths is within half a hundredth of 100/n; the body reproduces Python's float result at n = 4000 and n = 20000, where the double nearest 100/n lies just above the tie and rounds up |
| Evaluation.Checklist | database_filler/main.py:193-198 | one entry per generated item, in order: entry i is a dict whose `stavka` is item i and whose `max_poena` is the common share |
| Evaluation.WeightSumEqual | database_filler/main.py:193-198 | entries of equal weight sum to their count times the weight |
| Evaluation.ChecklistTotal | database_filler/main.py:189-198 | the weights add up to 100 points, within half a hundredth per item |
| Evaluation.ChecklistItems | database_filler/main.py:179-186 | usable checklist items are never an empty list |
| Evaluation.CacheKeyCollides | database_filler/main.py:117 | the key `question::answer` is not injective: ("a::", "b") and ("a", "::b") share it |
| Evaluation.ResponseFields | database_filler/main.py:141-145 | each of the three response keys reads back its own value |
| Evaluation.CacheHit | database_filler/main.py:117-120 | a fresh entry is served as stored, whatever the collaborators would say, and nothing is written |
| Evaluation.StaleEntryIgnored | database_filler/main.py:118 | without a fresh entry the cache makes no difference: an expired entry is as good as none |
| Evaluation.StoredIsServed | database_filler/main.py:146-233 | only served bodies are stored, what is stored is what is served, and a failure stores nothing |
| Evaluation.TriageShortCircuit | database_filler/main.py:139-147 | a triage verdict of 0 or 5 is the grade, with no graded items and the rationale or the default summary, and does not depend on search, checklist or grading model |
| Evaluation.EmptyChecklistFails | database_filler/main.py:185-206 | an empty or unusable checklist is an error of the checklist stage (status 500), and nothing is graded or stored |
| Evaluation.GradedByBand | database_filler/main.py:222-231 | the detailed body carries the band of the total (a missing total counts as 0, band 1), the grading model's analysis and the summary sentence |
| Evaluation.DetailedRoute | database_filler/main.py:175-234 | after detailed grading the grading model saw the equal-weight checklist and the selected context, and the outcome is the scored analysis |
| Evaluation.RepeatWithinLifetime | database_filler/main.py:117-147 | a body cached at `now` is served again, unchanged, to the same question and answer until the lifetime runs out |
| Evaluation.BuildChecklist | database_filler/main.py:193-198 | the append loop builds exactly the checklist |
| Evaluation.GradeStages | database_filler/main.py:124-238 | the stages run in order, and the first failure ends the request with its stage |
| Evaluation.EvaluationService.constructor | database_filler/main.py:61-65 | the service starts with an empty cache |
| Evaluation.EvaluationService.Evaluate | database_filler/main.py:108-238 | the reply is `Handle`'s (503 without a database, the cached body on a hit, else the graded outcome), and the cache gains exactly the entry stored at `now` |
| AnswerCheck.ParseFallback | main.py:151-156 | the error grade and the whole reply come back exactly when one of the two markers is missing |
| AnswerCheck.ParseSuccess | main.py:152-153 | with both markers, the grade is the text after the first `OCENA:` cut at the next one and at `OBJAŠNJENJE:`, stripped, and holds neither marker; the explanation is the text between the first and second `OBJAŠNJENJE:`, stripped |
| AnswerCheck.NoGradeMarkerInExplanationMarker | main.py:152 | `OCENA:` cannot start inside `OBJAŠNJENJE:` |
| AnswerCheck.GradeSideAfterMarker | main.py:152 | no grade marker starts before the explanation marker's tail in the demanded format |
| AnswerCheck.GradeBetweenMarkers | main.py:152 | in the demanded format, `split("OCENA:")[1]` is the text after the grade marker |
| AnswerCheck.CutKeepsExplanationMarker | main.py:152 | cutting at a further grade marker keeps the explanation marker |
| AnswerCheck.GradePiece | main.py:152 | the piece before the explanation marker, stripped, is the grade |
| AnswerCheck.GradeRoundTrip | main.py:152 | the grade's side of the round trip |
| AnswerCheck.ExplanationRoundTrip | main.py:153 | the explanation's side of the round trip |
| AnswerCheck.FormatRoundTrip | main.py:152-153 | "OCENA: g\nOBJAŠNJENJE: e", the format the prompt asks for (prompts.py:92-93), parses back to (g, e) when both are stripped, g holds neither marker and e holds no `OBJAŠNJENJE:` |
| AnswerCheck.AskServes | main.py:81-108 | refused iff no database; else the reply quotes the question, the context is recoverable as the retrieved pages in order, and the answer is generated from that context |
| AnswerCheck.CheckEchoes | main.py:122-164 | refused iff no database; else it echoes the question, the answer and the context unchanged, and the grade and explanation are the parsed verdict |
| AnswerCheck.CheckRoundTrip | main.py:147-164 | a checker replying in the demanded format is reported faithfully |
| EmbeddingRecords.FencedBody | diplomski/populate_vector_database/dto.py:18 | a reply fenced "```json\n…\n```", with any padding, is decoded as its body |
| EmbeddingRecords.UnfencedBody | diplomski/populate_vector_database/dto.py:18 | an unfenced stripped reply is decoded as it is |
| EmbeddingRecords.FencesOnlyAtEnds | diplomski/populate_vector_database/dto.py:18 | removing the fences cuts a prefix and a suffix and nothing else |
| EmbeddingRecords.NamesOf | diplomski/populate_vector_database/dto.py:33-34 | one name per action when listing succeeds |
| EmbeddingRecords.NamesOfActions | diplomski/populate_vector_database/dto.py:33-34 | listing succeeds iff every action is a dict with a string or absent name; then the names are the actions' names in order, with "" for a missing one |
| EmbeddingRecords.RecordFields | diplomski/populate_vector_database/dto.py:31-47 | a record reads back the exact embedding text and the keywords (default []), its metadata has no other key, and the names are recoverable from the joined questions when none holds a space |
| EmbeddingRecords.EmptyDictRecord | diplomski/populate_vector_database/dto.py:31-41 | missing fields render as "" and the keywords default to [] |
| EmbeddingRecords.RecordFails | diplomski/populate_vector_database/dto.py:33-52 | building a record raises exactly when some question action is not a dict with a string name |
| EmbeddingRecords.Dicts | diplomski/populate_vector_database/dto.py:26-28 | the dicts of a list are never more than its elements |
| EmbeddingRecords.RecordsSnoc | diplomski/populate_vector_database/dto.py:26-47 | a longer prefix is one more loop step |
| EmbeddingRecords.RecordsPerDict | diplomski/populate_vector_database/dto.py:26-47 | records exist iff every dict's record does; then there is one record per dict element, in list order, and non-dicts are skipped |
| EmbeddingRecords.RecordsAbort | diplomski/populate_vector_database/dto.py:44-52 | once a record raises, the rest of the list cannot bring the result back |
| EmbeddingRecords.NothingToParse | diplomski/populate_vector_database/dto.py:13-22 | a blank, undecodable or non-list reply gives no records |
| EmbeddingRecords.ParseObjects | diplomski/populate_vector_database/dto.py:7-52 | the skip-and-append loop with its catch-all gives exactly `ObjectParser` |
| TextCleaner.ReplaceChar | database_filler/populate_vector_database/util_functions.py:28 | a replaced symbol not in its replacement is gone, and every output character comes from the input or the replacement |
| TextCleaner.ReplaceAbsent | database_filler/populate_vector_database/util_functions.py:28 | nothing to replace, nothing changes |
| TextCleaner.ReplaceIsSplitJoin | database_filler/populate_vector_database/util_functions.py:28 | `s.replace(c, r)` equals `r.join(s.split(c))`, the reference definition of `str.replace` |
| TextCleaner.TableRemovesSymbols | database_filler/populate_vector_database/util_functions.py:27-28 | applying, in order, a table whose replacements spell none of its symbols leaves none of them |
| TextCleaner.SubstitutionsAscii | database_filler/populate_vector_database/util_functions.py:16-26 | no replacement in the table spells any of its symbols |
| TextCleaner.NoSymbolsLeft | database_filler/populate_vector_database/util_functions.py:16-28 | after the substitution step, none of the table's symbols is left |
| TextCleaner.Filter | database_filler/populate_vector_database/util_functions.py:33 | the filter never lengthens the text and leaves only word characters, whitespace and the listed punctuation |
| TextCleaner.FilterKeepsAllowed | database_filler/populate_vector_database/util_functions.py:33 | on allowed text the filter changes nothing |
| TextCleaner.Collapse | database_filler/populate_vector_database/util_functions.py:36 | the collapse never lengthens the text, empties only the empty text, keeps whether it starts with whitespace, and leaves only single plain spaces |
| TextCleaner.CollapseAllowed | database_filler/populate_vector_database/util_functions.py:33-36 | collapsing allowed text keeps it allowed |
| TextCleaner.CollapseCollapsed | database_filler/populate_vector_database/util_functions.py:36 | on collapsed text the collapse changes nothing |
| TextCleaner.CollapseKeepsText | database_filler/populate_vector_database/util_functions.py:36 | the non-whitespace characters stay, in order |
| TextCleaner.StripKeeps | database_filler/populate_vector_database/util_functions.py:36 | stripping collapsed, allowed text keeps it so |
| TextCleaner.FilterAndCollapseShape | database_filler/populate_vector_database/util_functions.py:33-36 | the output holds only allowed characters, has no whitespace at either end, has only single plain spaces, and is never longer than its input |
| TextCleaner.FilterAndCollapseIdempotent | database_filler/populate_vector_database/util_functions.py:33-36 | running the filter-and-collapse stage again changes nothing |
| TextCleaner.BlankAfterFilter | database_filler/populate_vector_database/util_functions.py:33-36 | text that is empty or all whitespace after filtering comes out "" |
| TextCleaner.CleanText | database_filler/populate_vector_database/util_functions.py:7-38 | the step-by-step cleaning gives the cleaned text of the normalised input, allowed, collapsed and stripped |
| PdfOrigin.MsWordSubsumed | diplomski/populate_vector_database/is_pdf_or_pp.py:27 | the `msword` test adds nothing to the `word` test |
| PdfOrigin.ClassifyCases | diplomski/populate_vector_database/is_pdf_or_pp.py:16-38 | the verdict is one of the five; PowerPoint iff a PowerPoint marker or a `.ppt` title; Word iff no PowerPoint marker and "word" in the creator or title; Microsoft iff neither and "microsoft" in the creator or producer |
| PdfOrigin.OriginIgnoresCase | diplomski/populate_vector_database/is_pdf_or_pp.py:16-18 | ASCII upper-casing of any field does not change the verdict |
| PdfOrigin.ErrorOnlyOnFailure | diplomski/populate_vector_database/is_pdf_or_pp.py:10-38 | the verdict is Error iff the metadata cannot be read |
| PdfOrigin.StructureCases | diplomski/populate_vector_database/is_pdf_or_pp.py:48-92 | no verdict for an unreadable or empty document or a first page of zero height; "presentation" iff landscape, presentation ratio and consistent sizes; "portrait" iff not landscape |
| PdfOrigin.CheckPdfCases | diplomski/populate_vector_database/is_pdf_or_pp.py:100-111 | the verdict is PowerPoint, Word or Unknown; a PowerPoint origin decides whatever the pages; otherwise a presentation layout gives PowerPoint, and else Word iff the origin was Word |
| AiChunks.RunEnd | diplomski/populate_vector_database/ai.py:21 | the greedy `[\w-]+` run is maximal |
| AiChunks.ExtensionAt | diplomski/populate_vector_database/ai.py:21-22 | a matched extension lies inside the text |
| AiChunks.ExtensionMatched | diplomski/populate_vector_database/ai.py:21-22 | what matched is one of jpg/jpeg/png/gif/bmp/webp, up to letter case |
| AiChunks.MatchEnd | diplomski/populate_vector_database/ai.py:21 | a match is non-empty and inside the text |
| AiChunks.Spans | diplomski/populate_vector_database/ai.py:22 | every reported span lies at or after the scan start and inside the text |
| AiChunks.SpansMatch | diplomski/populate_vector_database/ai.py:22 | every span is a match, and the spans are in order without overlapping |
| AiChunks.SpansStep | diplomski/populate_vector_database/ai.py:22 | one step of the leftmost scan |
| AiChunks.SpansFirst | diplomski/populate_vector_database/ai.py:22 | no match starts before the first span, or anywhere when there is none |
| AiChunks.SpansGaps | diplomski/populate_vector_database/ai.py:22 | no match starts in a gap between spans or after the last one, so each span is the leftmost match |
| AiChunks.ImageNames | diplomski/populate_vector_database/ai.py:22 | one name per regex match |
| AiChunks.MatchIsImageName | diplomski/populate_vector_database/ai.py:21-22 | each matched text is a whole image name: name characters, a dot, an extension |
| AiChunks.NameAt | diplomski/populate_vector_database/ai.py:22 | the i-th name is the text of the i-th span, occurs there, and is a whole image name |
| AiChunks.ImageNamesShape | diplomski/populate_vector_database/ai.py:21-24 | every name is an image name occurring in the text, each at or after the end of the one before |
| AiChunks.NamesAreImageNames | diplomski/populate_vector_database/ai.py:21-22 | every name found is an image name where its span starts |
| AiChunks.NamesInOrder | diplomski/populate_vector_database/ai.py:22 | the names appear in order of their position in the text |
| AiChunks.NoMatchNoPaths | diplomski/populate_vector_database/ai.py:22-26 | no paths iff the pattern matches nowhere |
| AiChunks.NoDotNoPaths | diplomski/populate_vector_database/ai.py:21-26 | text without a dot gives no paths |
| AiChunks.Window | diplomski/populate_vector_database/ai.py:34-43 | chunk i sees chunk i-1 or the "no previous" placeholder when i = 0, chunk i+1 or the "no next" placeholder for the last chunk, and the image paths of its own text |
| AiChunks.SingleChunk | diplomski/populate_vector_database/ai.py:36-37 | a single chunk gets both placeholders |
| AiChunks.Accepted | diplomski/populate_vector_database/ai.py:45-56 | the accepted reply is non-empty, and there is one iff some call returned a non-empty string |
| AiChunks.AcceptedFirst | diplomski/populate_vector_database/ai.py:45-56 | empty replies and raised calls before the first non-empty reply are skipped |
| AiChunks.AskUntilAnswered | diplomski/populate_vector_database/ai.py:45-56 | with a pause `time.sleep` accepts, the retry loop answers iff some try returns a non-empty reply, and then it returns the first one; with a negative pause it never runs out of calls unless there are none, because the sleep after an empty first reply raises |
| AiChunks.NoChunksNoCalls | diplomski/populate_vector_database/ai.py:31-64 | an empty chunk list gives [] whatever the model would say |
| AiChunks.CollectedSnoc | diplomski/populate_vector_database/ai.py:58 | a longer prefix of chunks is one more `extend` |
| AiChunks.CollectedPrefix | diplomski/populate_vector_database/ai.py:58 | the records of earlier chunks begin the records of later ones |
| AiChunks.CollectedStuck | diplomski/populate_vector_database/ai.py:45-58 | once a chunk never gets a reply, the whole pass never finishes |
| AiChunks.ChunkRecordsInPlace | diplomski/populate_vector_database/ai.py:33-64 | when the pass finishes, every chunk got a reply, and its parsed records sit right after those of the chunks before it |
| AiChunks.RequestRecordsInPlace | diplomski/populate_vector_database/ai.py:33-64 | the same placement, for any list of requests |
| AiChunks.CollectedAnswered | diplomski/populate_vector_database/ai.py:58 | an answered chunk adds exactly `object_parser` of its reply |
| AiChunks.StuckAt | diplomski/populate_vector_database/ai.py:45-56 | an unanswered chunk leaves the prefix up to it unfinished |
| AiChunks.GetAiChunks | diplomski/populate_vector_database/ai.py:29-64 | with a pause `time.sleep` accepts, the loops finish iff every chunk gets a reply, and then the records are the concatenation, in chunk order, of `object_parser` of each reply; with a negative pause and at least one chunk they never finish |
| PopulateDatabase.Document.constructor | populate_database.py:34-35 | a document holds its content and metadata |
| PopulateDatabase.LessonOfFile | populate_database.py:38-40 | a file's lesson is its name without the last extension |
| PopulateDatabase.SubjectOfFolder | populate_database.py:43-46 | a file in a folder below the data directory gets that folder as its subject |
| PopulateDatabase.SubjectAtTop | populate_database.py:43-46 | a file directly in the data directory, or the directory itself, gets `opšte` |
| PopulateDatabase.SubjectOutside | populate_database.py:43-46 | a file outside the data directory, deeper than one level up, gets the subject ".." |
| PopulateDatabase.SubjectFails | populate_database.py:43 | only an empty source path makes `relpath` raise |
| PopulateDatabase.TagKeys | populate_database.py:40-46 | after a turn both keys hold the written values and every other key reads as before |
| PopulateDatabase.TagAgain | populate_database.py:40-46 | writing the same two values again changes nothing |
| PopulateDatabase.TaggedKeys | populate_database.py:34-46 | a finished turn gives a document the lesson and the subject of its source, and keeps its other metadata |
| PopulateDatabase.TaggedFinishes | populate_database.py:35-46 | a turn finishes exactly when the source is a non-empty string |
| PopulateDatabase.TaggedIdempotent | populate_database.py:34-46 | tagging a tagged document again changes nothing |
| PopulateDatabase.TagSource | populate_database.py:35-46 | a turn leaves the source where it was |
| PopulateDatabase.TagDocument | populate_database.py:35-46 | one turn changes the document's metadata to `Tagged` of the old one, and its content not at all |
| PopulateDatabase.ProcessDocuments | populate_database.py:27-47 | each document in order: all get their tagged metadata iff every turn finishes; else the first failing index is reported, the documents up to it are tagged (that one as far as it got), and the rest are unchanged; content never changes |
| PopulateDatabase.TaggingOutcomeHolds | populate_database.py:34-46 | the loop's bookkeeping on values yields the outcome stated for `ProcessDocuments` |
| PopulateDatabase.TagAll | populate_database.py:34-46 | the loop stops at the first turn that does not finish, with exactly the documents before it and that one tagged |
| PopulateDatabase.TagTurn | populate_database.py:35-46 | one turn updates only the visited document's entry in the bookkeeping |
| PopulateDatabase.ExistingSources | populate_database.py:74 | the set exists iff every stored document has a hashable source, and then it is exactly those sources |
| PopulateDatabase.NewDocumentsExactly | populate_database.py:89 | every kept document is a loaded one whose source is unknown, every such loaded document is kept, and the filter raises iff some source is missing or unhashable |
| PopulateDatabase.NewDocumentsSingle | populate_database.py:89 | one document is kept iff its source is unknown, and the filter raises iff its source is missing or unhashable |
| PopulateDatabase.NewDocumentsAppend | populate_database.py:89 | filtering a concatenation is the concatenation of the filtered parts (and raises iff either part raises), so the filter keeps the loaded order and the multiplicity of each document |
| PopulateDatabase.AllNew | populate_database.py:89 | with no source known, every loaded document is new, in order |
| PopulateDatabase.Populate | populate_database.py:54-142 | the update path ends up to date exactly when nothing is new; the create path ends early exactly when nothing was loaded; either early end touches no metadata; the run ends indexed exactly when the sources and the filter do not raise, there is something to index (the new documents on update, all loaded ones on create) and every one of them has a source whose tagging finishes, and raises otherwise; the indexed documents are those, tagged, and every loaded document not indexed keeps its metadata; no content changes |
| StartPopulation.WithoutUnderscores | database_filler/start_population.py:33-40 | removing the digit separators never lengthens the text |
| StartPopulation.PlainDigits | database_filler/start_population.py:33-40 | a plain run of digits is read by `int` as its decimal value |
| StartPopulation.ParseIntShown | database_filler/start_population.py:33-40 | `int` reads back what `str` writes, whatever whitespace surrounds it |
| StartPopulation.ShownTrimmed | database_filler/start_population.py:33-40 | `str(i)` is non-empty, has no whitespace at its ends, and reads back as i |
| StartPopulation.NegativeShown | database_filler/start_population.py:33-40 | `str(-a)` is a minus sign before the digits, and reads back as -a |
| StartPopulation.ParseIntAccepts | database_filler/start_population.py:33-49 | what `int` accepts: after stripping, an optional sign, then digits and single underscores starting and ending with a digit; a negative result needs the minus sign |
| StartPopulation.TuningUnset | database_filler/start_population.py:31-40 | with none of the keys set, every value is its default |
| StartPopulation.TuningIntFails | database_filler/start_population.py:42-49 | one unreadable integer value resets all six values to the defaults |
| StartPopulation.TuningFloatFails | database_filler/start_population.py:42-49 | one unreadable float value resets all six values to the defaults |
| StartPopulation.TuningRead | database_filler/start_population.py:31-40 | when every set value is readable, each setting is its key's value or its default |
| StartPopulation.TuningKeys | database_filler/start_population.py:33-40 | the environment keys of the six settings |
| StartPopulation.ChunkingCases | database_filler/start_population.py:61-68 | both chunking values come from their keys, or both are the defaults 1000 and 150 |
| StartPopulation.IntSettingWritten | database_filler/start_population.py:62-63 | a setting written as `str(n)`, padded or not, is read as n |
| StartPopulation.ChunkingWritten | database_filler/start_population.py:61-68 | chunking values written as `str(n)` are the ones the splitter gets |
| StartPopulation.LStripChars | database_filler/start_population.py:92 | `lstrip(chars)` gives a suffix that does not start with a stripped character |
| StartPopulation.RStripChars | database_filler/start_population.py:92 | `rstrip(chars)` gives a prefix that does not end with a stripped character |
| StartPopulation.StripCharsTrailing | database_filler/start_population.py:92 | separators after a text that neither starts nor ends with one are all that `strip('/\\')` removes |
| StartPopulation.PdfNamesShape | database_filler/start_population.py:91-92 | the lesson is the file's basename with its extension; the subject is one path component and never the data folder's own name |
| StartPopulation.SubjectFolder | database_filler/start_population.py:91-92 | a folder `root/subject` is not blank and is named `subject` |
| StartPopulation.FileInSubjectFolder | database_filler/start_population.py:91-92 | a file in a folder named `subject` (not the data folder's name) gets that subject and its own file name |
| StartPopulation.FileAtDataRoot | database_filler/start_population.py:91-92 | a file directly in the data folder gets the subject "", however many separators end the data path |
| StartPopulation.Metadatas | database_filler/start_population.py:94-102 | one entry per record, in order, iff every record's keywords can be read; each entry has the record's keywords and the same source, lesson and subject |
| StartPopulation.EmbeddingTexts | database_filler/start_population.py:105-113 | one text per record, in order, iff every record has an embedding text |
| StartPopulation.CollectTexts | database_filler/start_population.py:105-113 | the append loop builds exactly `EmbeddingTexts` |
| StartPopulation.TextsStuck | database_filler/start_population.py:108-113 | a record without an embedding text makes the loop raise |
| StartPopulation.RecordJsonWritable | database_filler/start_population.py:94-113 | a record built by `object_parser` reads back its text and keywords |
| StartPopulation.RecordsWritable | database_filler/start_population.py:94-113 | every record of a dict list carries a text and keywords |
| StartPopulation.ParsedWritable | database_filler/start_population.py:94-113 | everything `object_parser` returns carries a text and keywords |
| StartPopulation.CollectedWritable | database_filler/start_population.py:94-113 | everything the model stage returns carries a text and keywords |
| StartPopulation.Guarded | diplomski/vector_db_manager.py:14-16 | the store is written exactly when the texts and the metadata have equal length |
| StartPopulation.OnlyFirstFile | database_filler/start_population.py:71-133 | only the first listed PDF is ever processed |
| StartPopulation.NoModelNoWork | database_filler/start_population.py:50-59 | without the embedding model nothing is listed, extracted or asked |
| StartPopulation.ProcessedCases | database_filler/start_population.py:81-131 | one PDF ends with the sleep's ValueError iff the pause is negative, there is a chunk and the first chunk's first call comes back. It is unfinished iff the model stage keeps retrying (under a negative pause: iff that first call never comes back). It gives no write iff that stage returns no records and the pause is valid or there is no chunk. Otherwise it is written, under a non-negative pause: per record in order, its text and a metadata entry with its keywords, the PDF, the lesson and the subject. The metadata, the texts and the length guard never fail |
| StartPopulation.NegativePauseRaises | database_filler/start_population.py:40 | a TIME_TO_WAIT of `str(w)` with `w < 0` is read as `w`, and the run then ends with the sleep's ValueError iff a PDF is listed, it has a chunk and that chunk's first call comes back |
| StartPopulation.WaitRead | database_filler/start_population.py:40 | `int()` reads `str(w)` back as the pause `w`, negative values included |
| StartPopulation.StoredWritten | database_filler/start_population.py:89-123 | records that all carry a text and keywords pass the length guard and are written entry by entry |
| StartPopulation.ProcessFile | database_filler/start_population.py:72-133 | the loop body for one PDF gives exactly `Processed` |
| StartPopulation.Start | database_filler/start_population.py:15-133 | `main` gives exactly `RunOutcome` |
| PyStrings.StripTrims | main.py:152-153 | a stripped string has no whitespace at either end, lies inside its input, and is empty iff the input is all whitespace |
| PyStrings.StripPadded | main.py:152-153 | whitespace around a trimmed text is exactly what `strip` removes |
| PyStrings.LStripDrops | main.py:152-153 | `lstrip` drops the leading whitespace and nothing else |
| PyStrings.RStripDrops | main.py:152-153 | `rstrip` drops the trailing whitespace and nothing else |
| PyStrings.Find | main.py:152 | `find` reports the leftmost occurrence, or none iff there is none |
| PyStrings.Split | main.py:152 | `split` gives at least one piece |
| PyStrings.JoinSplit | main.py:152 | joining the pieces of a split with the separator gives the string back |
| PyStrings.SplitPieces | main.py:152-153 | a split has one piece iff the separator is absent, and no piece contains it |
| PyStrings.SplitJoin | main.py:96 | splitting a join gives the pieces back when no piece contains the separator or ends in one of its characters |
| PyStrings.SplitHead | main.py:152 | `split(sep)[0]` is the text before the first separator |
| PyStrings.SplitSecond | main.py:152-153 | `split(sep)[1]` exists iff sep occurs, and then it is the text between the first and second occurrence |
| PyStrings.JoinLength | main.py:96 | a join is every piece plus one separator between each neighbouring pair |
| PyStrings.NatToStringSound | ai_backend/bonus.py:71 | `str(n)` is a non-empty digit run without a leading zero whose value is n |
| PyStrings.LowerUpper | diplomski/populate_vector_database/is_pdf_or_pp.py:16-18 | lower-casing forgets a prior upper-casing |
| PyStrings.WordCharIsNotSpace | database_filler/populate_vector_database/util_functions.py:33 | a word character is never whitespace |
| PosixPath.Basename | populate_database.py:38 | `basename` is the longest suffix without a `/` |
| PosixPath.JoinBasename | diplomski/populate_vector_database/ai.py:24 | a name without `/` joined onto any directory is what `basename` gives back |
| PosixPath.JoinCases | diplomski/populate_vector_database/ai.py:24 | an absolute second argument replaces the first; a relative one extends it |
| PosixPath.SplitParts | database_filler/start_population.py:91 | the tail of `split` is the basename; the head is empty iff there is no `/`, and keeps a trailing `/` only when it is all slashes |
| PosixPath.SplitJoined | database_filler/start_population.py:91 | splitting a join of a directory and a plain name gives both back |
| PosixPath.SplitextParts | populate_database.py:39 | the two parts make up the path, and the extension is empty or one `.` followed by text with no `.` or `/` |
| PosixPath.SplitextName | populate_database.py:39 | a name with a non-dot stem loses exactly its last extension |
| PosixPath.SplitextNoDot | populate_database.py:39 | a name without a dot has no extension |
| PosixPath.AbsPartsComponents | populate_database.py:43 | every part of a normalised absolute path is a proper component |
| PosixPath.CommonPrefixSound | populate_database.py:43 | the part lists agree up to the common prefix and differ right after it |
| PosixPath.RelPartsClean | populate_database.py:43-44 | every part of a relative path is a component or ".." |
| PosixPath.RelpathSplit | populate_database.py:43-44 | splitting `relpath` at `/` gives its parts back, or ["."] when there are none |
| PosixPath.RelpathBelow | populate_database.py:43-46 | a path below the start is relative to it by exactly the parts below |
| PosixPath.RelpathOutside | populate_database.py:43-46 | a path not below the start climbs out of it, so its first part is ".." |
| PyJson.Lookup | ai_backend/bonus.py:10-16 | a key is found iff the dict holds it |
| PyJson.StoreLookup | ai_backend/bonus.py:67-74 | after `d[key] = v`, `d[key]` is v and every other key reads as before |
| PyJson.StoreSame | ai_backend/bonus.py:67-71 | storing the value a key already holds changes nothing |
| PyJson.StoreLength | ai_backend/bonus.py:67-71 | overwriting keeps the length of the dict, and adding a new key makes it one longer |
| PyNumbers.Min | ai_backend/bonus.py:64 | `min` is one of its arguments and at most both |
| PyNumbers.RoundDiv | database_filler/main.py:190 | the rounded quotient is within half of the exact one, and exact ties go to the even neighbour |

## Left out

- I/O is not modelled: HTTP (FastAPI, CORS, `HTTPException` beyond its status and stage), printing, `load_dotenv` (the environment is a map), the filesystem, the FAISS store and its loading, saving and splitting, and the waiting done by `time.sleep`.
- The language models, `json.loads`, `json.dumps`, `str()` of non-string values, `float()`, the vector search, `load_pdf_fiels`, `ekstraktuj_i_podeli_tekst` and the PDF page geometry are parameters. What they compute is not modelled.
- `parallel_search` (`izvrsi_paralelnu_pretragu`) is imported by `database_filler/main.py` but its source is not part of this model. Fan-out and reranking are its result, given as a parameter.
- Prompt templates (`prompts.py`, `ai_backend/prompts.py`) are text only. The model's route functions pass the question, answer, context and checklist to the oracles rather than formatting the prompts.
- Floating point is not modelled; numbers are exact hundredths.
- Bonus.RoundHalfEven: `round(final)` is taken on the exact hundredths, not on a float.
- PdfOrigin.StructureCases: page sizes are reals standing for PyMuPDF's floats, compared exactly as Python compares them. But the aspect ratio `w / h` is the exact quotient, and the thresholds 1.25, 1.45, 1.65 and 1.85 are exact decimals. Python rounds the quotient to the nearest double and compares it with the doubles nearest those literals. Where that rounding falls on the other side of a threshold, Python's verdict differs from the model's.
- Unicode NFKC normalisation is a parameter of `TextCleaner.CleanText`. `ocisti_direktorijum` (deleting the image folder) is not modelled.
- PyStrings.IsWordChar: `\w` (`isalnum()` or `_`) is exact only on the Latin blocks U+0000..U+024F and the Cyrillic blocks U+0400..U+052F. Other Unicode letters and digits are not word characters here.
- AiChunks.ExtensionAt: `re.IGNORECASE` is modelled on ASCII letters only. Python also matches the dotless `ı` and the dotted `İ` against the `i` of `gif`, so it finds `x.gıf`; the model does not.
- PyStrings.Lower: lowercases ASCII letters only. Of the other characters, Python's `str.lower` maps only the Kelvin sign to an ASCII letter (`k`), and `İ` to `i` followed by a combining dot. No marker of `proveri_poreklo_pdf` contains `k` or ends in `i`, so no verdict of the classifier depends on this.
- PdfOrigin.OriginIgnoresCase: holds for ASCII upper-casing only. Python's `str.upper` also maps some non-ASCII letters to ASCII ones, for example `ı` to `I`. A creator `mıcrosoft` is Unknown, while its upper-cased form `MICROSOFT` gives Microsoft Office Document.
- StartPopulation.ParseInt: accepts ASCII digits only. Python's `int` also accepts other Unicode decimal digits. The model also reads numbers of any length, while Python 3.11 and later raise `ValueError` for a string of more than 4300 digits. Such a value would send every tuning setting to its default.
- PosixPath.AbsParts: the working directory is a parameter and assumed absolute. `normpath` keeps a leading `//`, and the model does not. That never changes a result here, because `relpath` drops empty components.
- PopulateDatabase.Document: the metadata of two distinct `Document` objects is modelled as two dicts. Documents sharing one metadata dict object are not modelled.
- PopulateDatabase.ExistingSources: a set of `Json` values stands for a Python set. Python's `1 == 1.0 == True` merging of hashes is not modelled, and sources are compared as values.
- `DirectoryLoader` globbing and its threads are not modelled; the loaded documents are a parameter, in the order the five glob patterns return them.
- AiChunks.GetAiChunks: the retry loop is bounded by the finite list of replies the model gives per chunk. When the list runs out, the result says the source would still be retrying. Of `time.sleep(time_to_wait)`, only whether it accepts the value is modelled: a negative value raises ValueError. The length of a pause is left out, and so is the OverflowError for a value too large for the platform. The model's replies are a function of the request (the chunk, its neighbours and its image paths), so two chunks with identical requests get the same sequence of replies. A real model call does not promise that, and no proved property relies on it.
- The text splitter of `process_documents` (step 2) is not modelled; `ProcessDocuments` covers the metadata step, which is the part of the source carrying logic.
- The Moodle plugin written in PHP, the HTTP test scripts and the `diplomski 2` copies are outside the modelled core.
