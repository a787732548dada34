# Smart Document Classifier: chunked zero-shot classification, in Dafny

This project models the classification core of the Smart Document Classifier
backend and proves properties of it.

`DocumentClassifier.classify` rejects blank text. Otherwise it tokenizes the
text once and walks the tokens in non-overlapping windows of
`max_chunk_tokens` (800). Each window is decoded and sent to a zero-shot
classifier. The returned (label, score) pairs are appended to one list per
category. Each list is then averaged, with 0 for an empty list. The first
category, in category order, with the highest average is the prediction, and
the record reports the token count, the chunk count and whether the text was
chunked. Any exception inside that pipeline turns the whole call into the
`"Other"` / 0.0 error record. The module also keeps a registry holding one
classifier per model key.

Three small string helpers of the document processor are modelled too:
`get_file_type`, `is_supported_file_type` and `get_content_preview`.

Modules:

- `Outcomes`: `Call<T>`, a Python call that returns a value or raises an exception with a message.
- `PyStrings`: Python's `str.isspace`, `strip`, `lower` and `split(sep)[-1]`.
- `DocumentProcessor`: the three filename and preview helpers.
- `Chunking`: `range(0, n, M)`, the slices `tokens[i:i+M]`, and their arithmetic.
- `Scores`: the per-category score lists, `zip`, appending, means and the first maximum.
- `MlClassifier`: the result record, the tokenizer and classifier as an abstract `Backend`, and the specification function `ClassifySpec`. It also holds the imperative chunk loop proved equal to `ClassifySpec`, the `DocumentClassifier` class with its loading state, and the instance registry.
- `MlClassifierProperties`: what `classify` promises, proved about `ClassifySpec`.

The tokenizer's `encode` and `decode` and the zero-shot pipeline are modelled
as three arbitrary functions, each of which may return or raise. None of them
has to be the real model for any lemma to hold. Building the pipeline in
`load_model` becomes a `Call<Backend>` parameter: the backend it produces, or
the exception it raises.

Where the code and the tests disagree, the model follows the code.
`test_chunking.py` (lines 28-29 and 102-118) and `test/test_classifier.py`
(line 102) print fields the classifier never produces: `aggregation_method`,
`chunks_used`, `text_length_tokens`, `was_truncated`, `majority_vote` and
`weighted_scores`. `test_chunking.py` (lines 122-124) also speaks of
overlapping chunks and several aggregation strategies. The code has
non-overlapping windows and the mean only, and that is what is modelled.

## Model

| member | source | states |
|---|---|---|
| PyStrings.IsSpace | backend/ml_classifier.py:86 | the characters Python's `str.isspace` accepts, by code point (tab to carriage return, U+001C to space, U+0085, U+00A0, U+1680, U+2000 to U+200A, U+2028, U+2029, U+202F, U+205F, U+3000) |
| PyStrings.LeadingSpaces | backend/ml_classifier.py:86 | the number of leading whitespace characters: all of them are whitespace and the next one is not |
| PyStrings.TrailingSpaces | backend/ml_classifier.py:86 | the number of trailing whitespace characters: all of them are whitespace and the one before them is not |
| PyStrings.Strip | backend/document_processor.py:84 | `strip()` is a contiguous piece of the input, with only whitespace on either side and no whitespace at either end when non-empty |
| PyStrings.StripEmptyIffAllSpace | backend/ml_classifier.py:86 | `text.strip()` is empty exactly when every character is whitespace, so `not text or not text.strip()` is "all whitespace" |
| PyStrings.Lower | backend/document_processor.py:70 | `lower()` keeps the length and lowercases each character |
| PyStrings.LowerIdempotent | backend/document_processor.py:76 | lowercasing twice is lowercasing once |
| PyStrings.LastField | backend/document_processor.py:70 | `split(sep)[-1]` is a suffix without `sep`, preceded by `sep` when shorter than the input, and the whole input when `sep` does not occur |
| PyStrings.LastFieldAfterSeparator | backend/document_processor.py:70 | the last field of `prefix + sep + last` is `last` whenever `last` has no `sep` |
| PyStrings.ReprQuote | backend/ml_classifier.py:124 | `repr` quotes with `"` exactly when the string holds `'` and no `"`, and with `'` otherwise |
| PyStrings.Repr | backend/ml_classifier.py:124 | `repr(s)` has at least two characters and starts and ends with the quote ReprQuote chooses; that the middle is the escaped string is stated by ReprReadsBack |
| PyStrings.UnescapeEscape | backend/ml_classifier.py:124 | the escapes `repr` writes (`\\`, `\'`, `\t`, `\n`, `\r`, `\xhh`) read back to the original string |
| PyStrings.ReprReadsBack | backend/ml_classifier.py:124 | unescaping what lies between the quotes of `repr(s)` gives `s`, so `repr` is injective |
| PyStrings.ReprPlain | backend/ml_classifier.py:124 | printable ASCII without quotes or backslashes is written as it is, between single quotes |
| PyStrings.ReprApostrophe | backend/ml_classifier.py:124 | `repr("it's")` is `"it's"`, in double quotes |
| PyStrings.ReprNewline | backend/ml_classifier.py:124 | a newline is written `\n` |
| PyStrings.ReprBothQuotes | backend/ml_classifier.py:124 | with both quote kinds present the single quote is escaped |
| DocumentProcessor.FileType | backend/document_processor.py:68-70 | `'unknown'` without a dot; otherwise the lowercased text after the last dot, which has no dot and is shorter than the name |
| DocumentProcessor.FileTypeOfExtension | backend/document_processor.py:70 | `stem + "." + ext` gives `lower(ext)` for any stem, when `ext` has no dot |
| DocumentProcessor.FileTypeIsLowerWithoutDot | backend/document_processor.py:70 | the file type never contains a dot and is already lower case |
| DocumentProcessor.FileTypeExample | backend/document_processor.py:70 | `"a.b.PDF"` gives `"pdf"` |
| DocumentProcessor.FileTypeTrailingDot | backend/document_processor.py:70 | a name ending in a dot gives the empty extension |
| DocumentProcessor.IsSupportedFileType | backend/document_processor.py:73-76 | `is_supported_file_type(t)`: `lower(t)` is one of `txt`, `pdf`, `docx`, `doc` |
| DocumentProcessor.SupportedIgnoresCase | backend/document_processor.py:73-76 | `t` is supported iff `lower(t)` is one of `txt`, `pdf`, `docx`, `doc`, and `t` and `lower(t)` get the same answer |
| DocumentProcessor.NoExtensionNotSupported | backend/document_processor.py:70-76 | a name without a dot has type `'unknown'`, which is not supported |
| DocumentProcessor.PrefixTo | backend/document_processor.py:88 | Python's `s[:k]` for any integer `k`, negative `k` counting from the end |
| DocumentProcessor.ContentPreview | backend/document_processor.py:79-88 | `""` for empty content; the stripped content when it fits; otherwise, for `max_length >= 0`, its first `max_length` characters followed by `"..."`, of length `max_length + 3`, and for a negative `max_length` its first `max(0, len + max_length)` characters followed by `"..."` |
| DocumentProcessor.DefaultPreviewIsShort | backend/document_processor.py:79-88 | with the default `max_length=200` the preview has at most 203 characters |
| DocumentProcessor.ContentPreviewIsBoundedPrefix | backend/document_processor.py:84-88 | for `max_length >= 0` the preview is the stripped content, or its first `max_length` characters followed by `"..."`; it is at most `max_length + 3` long and empty for empty content |
| DocumentProcessor.ContentPreviewNegativeLength | backend/document_processor.py:85-88 | with a negative `max_length` the slice counts from the end: `("  ", -1)` gives `"..."` and `(" abc ", -1)` gives `"ab..."` |
| Chunking.Range | backend/ml_classifier.py:108 | `range(start, stop, step)` for a positive step: `start`, then the range from `start + step`, until `stop` is reached |
| Chunking.Window | backend/ml_classifier.py:111 | the slice `tokens[i:i+M]`, its end clamped to the length |
| Chunking.Chunks | backend/ml_classifier.py:108-111 | the windows `tokens[i:i+M]` for `i` in `range(0, n, M)`, in order |
| Chunking.RangeIsArithmetic | backend/ml_classifier.py:108 | `range(start, stop, step)` has `ceil((stop - start) / step)` elements, the `k`-th being `start + k * step`, all below `stop` |
| Chunking.ChunksFollowRange | backend/ml_classifier.py:108-111 | the chunks are the slices `tokens[i:i+M]` for the `i` of `range(0, n, M)`, in order |
| Chunking.ChunkCount | backend/ml_classifier.py:107-109 | there are `ceil(n / M)` chunks, 0 when `n = 0` |
| Chunking.ChunkExists | backend/ml_classifier.py:108 | chunk `k` exists exactly when `k * M < n` |
| Chunking.ChunkAt | backend/ml_classifier.py:111 | chunk `k` is `tokens[kM .. min((k+1)M, n))` |
| Chunking.ChunksFromCover | backend/ml_classifier.py:108-111 | the chunks from offset `i` concatenate to `tokens[i..]` |
| Chunking.ChunksCover | backend/ml_classifier.py:108-111 | the chunks concatenate to the token sequence: contiguous, disjoint and covering |
| Chunking.ChunksFromSizes | backend/ml_classifier.py:111 | from any offset, every chunk has between 1 and `M` tokens and all but the last have exactly `M` |
| Chunking.ChunkSizes | backend/ml_classifier.py:108-111 | every chunk has between 1 and `M` tokens and only the last may be shorter |
| Chunking.ChunkedIffLonger | backend/ml_classifier.py:149 | more than one chunk iff more than `M` tokens; no chunk iff no tokens |
| Scores.EmptyLists | backend/ml_classifier.py:101 | one empty list per category and no other key |
| Scores.Zip | backend/ml_classifier.py:123 | `zip` pairs position by position and stops at the shorter input |
| Scores.KeyErrorMessage | backend/ml_classifier.py:124 | `str(KeyError(label))`, which is `repr(label)` |
| Scores.FirstUnknown | backend/ml_classifier.py:123-124 | the first pair whose label is not a category, or none when all are categories |
| Scores.Append | backend/ml_classifier.py:123-124 | the appends go through iff every label is a category, and never add a key |
| Scores.AppendContents | backend/ml_classifier.py:123-124 | after the appends each category's list is its old list followed by the scores paired with it, in order |
| Scores.AppendKeyError | backend/ml_classifier.py:124 | a failed append raises the `KeyError` of the first label that is not a category |
| Scores.KeyErrorNamesLabel | backend/ml_classifier.py:124 | the `KeyError` text, `repr(label)`, determines the label |
| Scores.FirstUnknownSameKeys | backend/ml_classifier.py:124 | whether a label raises depends on the categories only, not on what was appended |
| Scores.ScoresForCount | backend/ml_classifier.py:123-124 | a category named `n` times among the labels gets `n` scores |
| Scores.Sum | backend/ml_classifier.py:130 | `sum(scores)`, the sum of a score list |
| Scores.Mean | backend/ml_classifier.py:130 | `sum(scores) / len(scores) if scores else 0` |
| Scores.MeanBounds | backend/ml_classifier.py:130 | the mean of a non-empty list of scores in `[lo, hi]` is in `[lo, hi]` |
| Scores.Averages | backend/ml_classifier.py:129-132 | `averaged_scores`: the same categories as the score lists, each mapped to the mean of its list |
| Scores.AveragesInUnitInterval | backend/ml_classifier.py:129-132 | with scores in `[0, 1]` every average is in `[0, 1]`, an empty list giving 0 |
| Scores.FirstMax | backend/ml_classifier.py:135 | `max(..., key=averaged.get)`: a category whose average is at least every other, and strictly above every earlier one |
| Scores.FirstMaxUnique | backend/ml_classifier.py:135 | any maximal category strictly above all earlier ones is the one chosen |
| Scores.FirstMaxOfTies | backend/ml_classifier.py:135 | when all averages are equal the first category is chosen |
| MlClassifier.IsBlank | backend/ml_classifier.py:86 | `not text or not text.strip()`: the stripped text is empty |
| MlClassifier.UnsupportedModelMessage | backend/ml_classifier.py:45 | the `ValueError` text `Model '<key>' not supported. Available models: ['bart-large-mnli', 'mdeberta-v3-base']` |
| MlClassifier.EffectiveCategories | backend/ml_classifier.py:20-93 | `None` and `[]` both give the five default categories in declared order; any other list is used as given |
| MlClassifier.ChunkPairs | backend/ml_classifier.py:114-123 | one chunk decoded, classified with the categories, and its labels zipped with its scores; an exception from either call is passed on |
| MlClassifier.ScoreChunks | backend/ml_classifier.py:108-124 | scoring chunk after chunk never adds or removes a category |
| MlClassifier.Conclude | backend/ml_classifier.py:129-150 | the result record from the final lists: the averages, the first category with the highest average and its average, the token and chunk counts, and `was_chunked` as more than one chunk |
| MlClassifier.ClassifySpec | backend/ml_classifier.py:86-161 | `classify` once loaded: blank text gives the empty-text record, a tokenizer exception or a zero step its error record, an exception in the chunk loop its error record, and otherwise Conclude of the lists of all chunks |
| MlClassifier.AppendScores | backend/ml_classifier.py:123-124 | the `for label, score in zip(...)` loop computes `Append`: the lists extended in order, or the first `KeyError` |
| MlClassifier.ScoreAllChunks | backend/ml_classifier.py:97-126 | the chunk loop gives the score lists of all chunks, or the first exception, and counts `ceil(n / M)` chunks when it completes |
| MlClassifier.ClassifyText | backend/ml_classifier.py:86-161 | the body of `classify` after loading computes `ClassifySpec`: blank text, tokenizer errors, a zero step and loop exceptions give the error record, otherwise the averaged result record |
| MlClassifier.DocumentClassifier.constructor | backend/ml_classifier.py:42-53 | a known key gives an unloaded classifier with that key's model id and name and a chunk size of 800 |
| MlClassifier.DocumentClassifier.Create | backend/ml_classifier.py:44-45 | an unknown key raises the `ValueError` naming the available models; a known key gives a fresh, unloaded classifier |
| MlClassifier.DocumentClassifier.LoadModel | backend/ml_classifier.py:55-70 | a successful load keeps the backend and marks the classifier loaded; a failed one re-raises and changes nothing |
| MlClassifier.DocumentClassifier.Classify | backend/ml_classifier.py:72-161 | loads first when not loaded, a failed load escaping; then returns `ClassifySpec` of the loaded backend; a loaded classifier keeps its backend |
| MlClassifier.ClassifierRegistry.constructor | backend/ml_classifier.py:164 | the registry starts empty |
| MlClassifier.ClassifierRegistry.GetClassifier | backend/ml_classifier.py:166-171 | a registered key gives its instance and changes nothing; a new known key registers one fresh instance; an unknown key raises and changes nothing |
| MlClassifier.ClassifierRegistry.Cleanup | backend/ml_classifier.py:196-209 | the registry is empty afterwards |
| MlClassifier.ClassifierRegistry.ClassifyDocumentText | backend/ml_classifier.py:173-185 | the key's registered classifier, loaded, classifies with the default categories; an unknown key raises the `ValueError` and changes nothing; a new known key adds exactly its fresh instance; it raises for a known key exactly when a needed load fails, leaving the instance as it was; a needed load installs `load`'s backend and a loaded instance keeps its own; no other registered classifier is touched |
| MlClassifier.LoadsOnceThenReuses | backend/ml_classifier.py:83-84 | on a fresh registry the first `classify_document_text` loads and classifies with that backend, and a second call returns the same record whatever its load would give |
| MlClassifier.DefaultModelIsAvailable | backend/ml_classifier.py:166 | the default key `bart-large-mnli` is an available model, with id `facebook/bart-large-mnli`, so the default never raises |
| MlClassifier.RegistryReusesInstance | backend/ml_classifier.py:166-171 | two requests for one key give the same instance, which the registry holds, exactly when the key is known |
| MlClassifierProperties.ScoreChunksSucceedsIff | backend/ml_classifier.py:108-124 | scoring goes through iff every chunk decodes, is classified and returns only category labels |
| MlClassifierProperties.ScoreChunksContents | backend/ml_classifier.py:101-124 | each final list is the old list followed by the scores of every chunk for that category, in chunk order |
| MlClassifierProperties.ClassifiedFromScoreLists | backend/ml_classifier.py:129-142 | a result record's scores are the averages of the score lists of all chunks |
| MlClassifierProperties.BlankTextIsRejected | backend/ml_classifier.py:86-91 | blank text gives exactly the `"Empty text provided"` / `"Other"` / 0.0 record, for every backend, so nothing is tokenized or classified |
| MlClassifierProperties.ClassifySucceedsIff | backend/ml_classifier.py:86-161 | a result record iff the text is not blank, it tokenizes, `M > 0` and every chunk is accepted; every failure reports `"Other"` with 0.0 |
| MlClassifierProperties.UnknownLabelFailsTheCall | backend/ml_classifier.py:123-161 | one label outside the categories, in any chunk, fails the whole call with no partial result |
| MlClassifierProperties.ClassifiedCounts | backend/ml_classifier.py:98-149 | `token_count = n`, `chunks_processed = ceil(n / M)`, and `was_chunked` iff more than one chunk iff `n > M` |
| MlClassifierProperties.ClassifiedSelection | backend/ml_classifier.py:135-142 | the prediction is a category whose average is the confidence and at least every other average, and the earliest such category |
| MlClassifierProperties.AveragesOfChunkScores | backend/ml_classifier.py:101-132 | from empty lists, each average is the mean of that category's chunk scores |
| MlClassifierProperties.ClassifiedAverages | backend/ml_classifier.py:129-142 | every reported score is the mean of the scores the chunks gave that category, 0 when none did |
| MlClassifierProperties.OneScorePerChunk | backend/ml_classifier.py:123-124 | when every chunk returns each category once, scoring goes through and every list grows by one score per chunk |
| MlClassifierProperties.AveragesOverAllChunks | backend/ml_classifier.py:129-148 | in that case every category has `chunks_processed` scores and its average is their sum divided by `chunks_processed` |
| MlClassifierProperties.NoTokensPicksFirstCategory | backend/ml_classifier.py:129-136 | no tokens means no chunk, all averages 0, the first category predicted with confidence 0 |
| MlClassifierProperties.ScoresForInUnitInterval | backend/ml_classifier.py:123-124 | the scores paired with one category are among the classifier's scores, so they stay in `[0, 1]` |
| MlClassifierProperties.ScoreChunksInUnitInterval | backend/ml_classifier.py:108-124 | with probabilities from the classifier every appended score is in `[0, 1]` |
| MlClassifierProperties.ConfidenceIsProbability | backend/ml_classifier.py:129-142 | with probabilities from the classifier, the confidence and every reported score are in `[0, 1]` |

## Left out

- `load_model` internals: the Hugging Face `pipeline` and `AutoTokenizer` are not modelled. Their result is a `Call<Backend>` parameter, and the tokenizer and classifier are arbitrary functions.
- MlClassifier.DocumentClassifier.LoadModel: a failed load changes nothing in the model. In the source, a pipeline that loads before the tokenizer fails stays in `self.classifier`, while `is_loaded` stays false and the next call loads both again.
- Timing (`time.time()`, `inference_time`), logging, and the `model_used` / `model_id` metadata strings of the result record are not modelled.
- Rounding: `round(…, 4)` presentation rounding is not modelled. Scores are reals and the selection works on unrounded values.
- Floating point: scores are exact reals, so a float sum's rounding and NaN are not modelled. The average of an empty list is the real 0.0, where the source has the integer 0.
- PyStrings.Lower: only ASCII letters are lowercased, not Python's full Unicode case mapping.
- The score lists are mutated in place in the source. The model reassigns a `map` value, which has the same observable effect, since the lists are never shared.
- `get_available_models` (a copy of a constant) is not modelled.
- The text extraction functions of the document processor (files, PDF and DOCX libraries), and the web routes, database, migrations, launcher and tests, are not part of this model.
- Messages of exceptions raised inside the tokenizer or the classifier are whatever the backend raises. Only the `KeyError` of an unknown label (`repr` of the label) and the `ValueError` of a zero step (`range() arg 3 must not be zero`) are spelled out.
- PyStrings.Repr (and so Scores.KeyErrorMessage): `repr` is modelled exactly for characters up to U+00FF. Python also escapes the non-printable characters above U+00FF (other separators, format and unassigned characters) as `\uXXXX` or `\UXXXXXXXX`; the model writes those as they are, because that takes the Unicode category table.
