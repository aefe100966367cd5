# Virtual Lenny: the scoring, cleaning and chunking core in Dafny

This project models the parts of the Virtual Lenny retrieval-augmented chat
system that carry real logic, and proves properties of them:

- **RAG quality evaluator** (`Evaluator`). It has four scores:
  - retrieval metrics (mean, top score, source diversity) over scored search hits;
  - a persona score from the density of 13 keywords;
  - a groundedness score from word overlap with the context;
  - their 40/40/20 combination with a letter grade.

  Every score is computed exactly on `real` values. Python's `round` stays a
  parameter.
- **LinkedIn text cleaning** (`Cleaning`). It has whitespace canonicalisation
  and cutting a URL at its first `?`.
- **LinkedIn scrape Lambda** (`Scrape`). It maps a raw scraped item to the
  fixed post record, builds the record list, and runs the save loop. The save
  loop writes `prefix + post_id + ".json"` only when that key is not already
  in the bucket. The bucket is a `map`.
- **Chunking Lambda and chunking script** (`Chunks`, `ChunkLambda`,
  `ChunkScript`). Both build the flat chunk list:
  - a LinkedIn post is one chunk;
  - a YouTube transcript is one chunk per splitter piece, indexed 0..n-1;
  - files that are not `.json`, or have empty `text`, are skipped;
  - an exception stops the run.

  The splitter, the S3 listing and the directory walk are inputs. The Lambda's
  early exit when the output already exists is modelled, and so is its 500
  response.
- **Retrieval benchmark** (`Benchmark`). It computes hit rate and mean
  reciprocal rank over ranked ID lists.
- **Command-line agent** (`Agent.LennyAgent`). It is a class whose two fields
  are updated in place. It enforces a daily cap of 20 answered requests and a
  6-second minimum interval. Its counters move only when generation succeeds.

`Wrappers`, `Numeric`, `PyText` and `Json` hold the Python semantics the core
relies on:
- `Option`;
- `min`/`max` on reals, and the abstract `round`;
- ASCII `str.isspace`, `\s`, `\w`, `lower`, `strip`, `split()`, `re.findall`,
  `in`, `endswith` and `join`;
- dynamic JSON values with truthiness, `or`, `dict.get` and `str()`.

Where the code and its own comments disagree, the model follows the code:

- The retrieval docstring promises a `source_diversity` in 0-1. The code divides
  the number of distinct `source` tags by 2. A missing tag counts as `""`, so
  three tags give 1.5. `Evaluator.DiversityByTagCount` proves the ratio is at
  most 1 exactly when at most two tags occur.
- The daily limit message says "Come back tomorrow!". Nothing in the agent ever
  resets `requests_today`, so the model has no reset either.
- The chunking Lambda reads `post_id` and `video_id` without a default. A file
  missing them gets the ID `li_None`, or `yt_None_<i>` for the transcript
  chunks. The script falls back to the file name instead.

## Model

| member | source | states |
|---|---|---|
| Evaluator.NoScoresGiveZero | agent/message_handler/evaluator.py:37-45 | an empty result list gives all three metrics 0; results none of which has a score give average and top score 0 |
| Evaluator.ScoresArePresentScores | agent/message_handler/evaluator.py:41 | the score list holds exactly the present scores, and is empty exactly when no result has one |
| Evaluator.MaxOf | agent/message_handler/evaluator.py:45 | `max` is one of the scores and no score exceeds it |
| Evaluator.MeanBetweenMinAndMax | agent/message_handler/evaluator.py:44 | the mean lies between the smallest and the largest score |
| Evaluator.ScoredResultsBounds | agent/message_handler/evaluator.py:41-45 | with at least one score: min <= avg <= top, and top equals the score of some result and is at least every score |
| Evaluator.DiversityIgnoresScores | agent/message_handler/evaluator.py:48-50 | diversity depends only on the source tags (scoreless results count) and is the distinct-tag count / 2 |
| Evaluator.DiversityByTagCount | agent/message_handler/evaluator.py:48-50 | a non-empty list has at least one tag; one tag gives 0.5, two give 1.0; the value is <= 1 exactly when at most two tags occur |
| Evaluator.KeywordCount | agent/message_handler/evaluator.py:70-73 | the count never exceeds the number of keywords |
| Evaluator.LennyKeywordsDistinct | agent/message_handler/evaluator.py:17-21 | the 13 keywords are pairwise distinct |
| Evaluator.KeywordCountIsDistinctHits | agent/message_handler/evaluator.py:70-73 | on a repetition-free list the count is the number of distinct keywords occurring as substrings |
| Evaluator.WordCountZeroIff | agent/message_handler/evaluator.py:76-78 | the word count is 0 exactly when the response is all whitespace |
| Evaluator.PersonaFormula | agent/message_handler/evaluator.py:64-85 | for w > 0 words the score is min(20 k / w, 1) with k the distinct keywords found in the lowercased response |
| Evaluator.PersonaScoreBounds | agent/message_handler/evaluator.py:64-85 | the score is in [0, 1], and 0 for an empty or all-whitespace response or when no keyword occurs |
| Evaluator.PersonaSaturates | agent/message_handler/evaluator.py:80-83 | a density of at least 5 hits per 100 words gives exactly 1 |
| Evaluator.GroundednessSpec | agent/message_handler/evaluator.py:97-118 | in [0, 1]; 0 for an empty response, empty context or no 4+-letter token; 1 exactly when such tokens exist and all occur in the joined context |
| Evaluator.GradeBands | agent/message_handler/evaluator.py:155-164 | each grade owns a band closed at its lower bound: A >= 80, B [70, 80), C [60, 70), D [50, 60), F < 50 |
| Evaluator.GradeMonotone | agent/message_handler/evaluator.py:155-164 | a higher percentage never gets a lower grade |
| Evaluator.GradeIgnoresRounding | agent/message_handler/evaluator.py:152-167 | the grade comes from the unrounded percentage, so the rounding function cannot change it |
| Evaluator.CompositeExtremes | agent/message_handler/evaluator.py:143-174 | inputs (1,1,1) give 100 and A, (0,0,0) give 0 and F, and inputs in [0, 1] keep the percentage in [0, 100] |
| PyText.Strip | data-ingestion/linkedin/clean-linkedin.py:53 | the result is a contiguous piece of the input with no whitespace at either end, and only whitespace was removed |
| Cleaning.Collapse | data-ingestion/linkedin/clean-linkedin.py:52 | after collapsing, every whitespace character is a plain space, no two are adjacent, and a leading whitespace survives exactly when there was one |
| Cleaning.CollapseKeepsText | data-ingestion/linkedin/clean-linkedin.py:52 | collapsing keeps the non-whitespace characters exactly and in order |
| Cleaning.NormalizeWhitespaceSpec | data-ingestion/linkedin/clean-linkedin.py:43-53 | the output has no whitespace at the ends, no double whitespace and only plain spaces, keeps the non-whitespace characters in order, and is "" for None or "" |
| Cleaning.NormalizeWhitespaceIdempotent | data-ingestion/linkedin/clean-linkedin.py:52-53 | normalising twice equals normalising once |
| Cleaning.NormalizeWhitespaceIsJoinedWords | data-ingestion/linkedin/clean-linkedin.py:52-53 | the output is the input's `split()` words joined by single spaces |
| Cleaning.PrefixBefore | data-ingestion/linkedin/clean-linkedin.py:64 | `split(c)[0]` is a prefix without `c`, cut exactly at the first `c` |
| Cleaning.StripTrackingParamsSpec | data-ingestion/linkedin/clean-linkedin.py:57-64 | the result is the URL's prefix before its first `?`, and "" for None or "" |
| Cleaning.StripTrackingParamsStable | data-ingestion/linkedin/clean-linkedin.py:64 | a URL without `?` comes back unchanged, and stripping twice is stripping once |
| Scrape.PostIdResolution | lambdas/scrape_linkedin/handler.py:94-100 | the ID is never falsy: from a dict `activity_urn`, else `ugcPost_urn`, else `post_<index>`; otherwise the raw value or `post_<index>` |
| Scrape.PostedAtResolution | lambdas/scrape_linkedin/handler.py:103-109 | the date is `date`, `relative` or "" for a dict, else the raw value or ""; a missing key gives "" |
| Scrape.LikesResolution | lambdas/scrape_linkedin/handler.py:112-118 | likes come from the `stats` dict (`likes`, `total_reactions`, 0); top-level `likes`/`numLikes` only when `stats` is present and not a dict; no `stats` gives 0 |
| Scrape.AuthorNeverEmpty | lambdas/scrape_linkedin/handler.py:121-129 | the author is never falsy: a truthy `name` wins; otherwise the stripped "firstName lastName" when it is not empty, else the default author; a non-dict gives the default author |
| Scrape.RecordDefaults | lambdas/scrape_linkedin/handler.py:131-139 | every record has source `linkedin`; `url` and `text` are copied, or "" when absent |
| Scrape.ProcessItems | lambdas/scrape_linkedin/handler.py:91-143 | one record per item, same length and order, each built with its own position as fallback index |
| Scrape.SavePosts | lambdas/scrape_linkedin/handler.py:33-48 | the save loop's bucket and count are those of the write-if-absent fold `SaveAll` |
| Scrape.SaveKeepsExisting | lambdas/scrape_linkedin/handler.py:34-47 | the new keys are the old keys plus the records' keys, and no existing object is overwritten |
| Scrape.SaveCountsNewKeys | lambdas/scrape_linkedin/handler.py:33-48 | `saved_count` is the number of keys newly written, hence at most the number of items |
| Scrape.SaveFirstWins | lambdas/scrape_linkedin/handler.py:34-47 | a new key holds the first record of the batch with that key: a repeated ID is saved once |
| Chunks.AppendPieces | lambdas/chunk_data/handler.py:94-105 | the enumerate loop appends exactly the indexed chunks of the pieces |
| Chunks.PieceChunksShape | lambdas/chunk_data/handler.py:94-105 | one chunk per piece in order, index i, ID `<base>_<i>`, content the piece, the given URL and author |
| Chunks.PieceIdsDistinct | lambdas/chunk_data/handler.py:96 | the chunk IDs of one transcript are pairwise distinct |
| Chunks.GatherFailureStays | lambdas/chunk_data/handler.py:60-75 | once a file raises, the files after it change nothing |
| Chunks.GatherOkOnlyIfAllOk | lambdas/chunk_data/handler.py:125-129 | the loop succeeds exactly when no item raises |
| Chunks.GatherConcat | lambdas/chunk_data/handler.py:46-60 | looping over a + b is looping over a then b: chunks keep item order |
| Chunks.GatherSource | lambdas/chunk_data/handler.py:46-60 | every chunk of a successful loop is a chunk of one of its items |
| Chunks.GatherNothing | lambdas/chunk_data/handler.py:63-75 | items that each contribute nothing contribute nothing together |
| ChunkLambda.SourceOf | lambdas/chunk_data/handler.py:47 | a prefix is LinkedIn exactly when it contains `linkedin` |
| ChunkLambda.AppendFile | lambdas/chunk_data/handler.py:60-105 | one object's step extends the chunk list by that object's chunks, or raises |
| ChunkLambda.AppendListing | lambdas/chunk_data/handler.py:60-105 | the loop over one listing extends the chunk list by that listing's chunks, in listing order, or stops at the first exception |
| ChunkLambda.Handle | lambdas/chunk_data/handler.py:26-129 | an existing output gives 200 with 0 chunks and no write; a non-404 lookup error gives 500; otherwise the chunks of all prefixes are written and `total_chunks` is their number, or the first exception gives 500 and no write |
| ChunkLambda.FileChunksShape | lambdas/chunk_data/handler.py:63-105 | only kept objects yield chunks; a post is one chunk with its text and ID `li_<post_id>`; a transcript is one chunk per piece with index i, ID `yt_<video_id>_<i>` and the fixed author |
| ChunkLambda.ListingSkipsUnkept | lambdas/chunk_data/handler.py:63-75 | a listing whose `.json` objects all parse to objects, none with a truthy `text`, contributes nothing |
| ChunkLambda.AllSourcesMatch | lambdas/chunk_data/handler.py:46-105 | every chunk is among the chunks of some input prefix and carries that prefix's classification; transcript chunks carry the fixed author |
| ChunkLambda.AllChunksConcat | lambdas/chunk_data/handler.py:46-60 | chunks appear in prefix order; a prefix without `Contents` adds nothing |
| ChunkScript.Basename | data-ingestion/processing-scripts/chunking-data.py:27 | the base name is the path's suffix after its last `/` |
| ChunkScript.AppendFile | data-ingestion/processing-scripts/chunking-data.py:34-73 | one file's step extends the chunk list by that file's chunks, or raises |
| ChunkScript.AppendFolder | data-ingestion/processing-scripts/chunking-data.py:34-73 | the loop over one folder's files extends the chunk list by that folder's chunks, in file order, or stops at the first exception |
| ChunkScript.ProcessData | data-ingestion/processing-scripts/chunking-data.py:20-80 | the chunk list written is that of the whole walk, or the first exception |
| ChunkScript.FileChunksShape | data-ingestion/processing-scripts/chunking-data.py:35-73 | only kept files yield chunks; the ID falls back to the file name only when the key is absent; a transcript keeps the file's author, defaulting to Lenny |
| ChunkScript.OtherFoldersIgnored | data-ingestion/processing-scripts/chunking-data.py:27-29 | folders not named `youtube` or `linkedin` contribute nothing |
| ChunkScript.FilesCount | data-ingestion/processing-scripts/chunking-data.py:34-73 | a folder yields one chunk per kept post, or the pieces of its kept transcripts |
| ChunkScript.TotalChunkCount | data-ingestion/processing-scripts/chunking-data.py:46-80 | total chunks = kept LinkedIn files + splitter pieces over kept YouTube files |
| Benchmark.IndexOf | src/compare-embeddings.py:47 | `index` is the position of the first occurrence |
| Benchmark.ReciprocalRank | src/compare-embeddings.py:44-48 | each query adds between 0 and 1; 0 for a miss, positive for a hit, 1 when ranked first |
| Benchmark.EvaluateRetrieval | src/compare-embeddings.py:29-53 | the loop's sums are `Hits` and `MrrSum`, reported divided by the query count and rounded to 4 digits; an empty gold set raises |
| Benchmark.HitsCountsFound | src/compare-embeddings.py:44-45 | `hits` is the number of queries whose correct ID was retrieved |
| Benchmark.MrrBelowHits | src/compare-embeddings.py:44-48 | 0 <= mrr_sum <= hits <= number of queries |
| Benchmark.AllRankedFirst | src/compare-embeddings.py:44-48 | when every correct ID is ranked first, both sums equal the number of queries |
| Benchmark.NoneRetrieved | src/compare-embeddings.py:44-48 | when no correct ID is retrieved, both sums are 0 |
| Benchmark.ReportedBounds | src/compare-embeddings.py:50-53 | under a monotone rounding that keeps 0 and 1, the reported 0 <= MRR <= hit rate <= 1 |
| Benchmark.PerfectRankingReportsOne | src/compare-embeddings.py:50-53 | a perfectly ranked gold set reports hit rate 1 and MRR 1 |
| Agent.WaitTime | src/rag-check.py:53 | the wait is never negative, is 0 exactly when 6 seconds have passed, and otherwise fills the gap to 6 |
| Agent.ContextTextExtend | src/rag-check.py:58 | the context is the chunks' texts (`content`, else `text`, else "") in order, separated by a blank line |
| Agent.LennyAgent.constructor | src/rag-check.py:35-37 | a new agent has no requests and last request time 0, and satisfies the daily cap |
| Agent.LennyAgent.AskLenny | src/rag-check.py:47-83 | at the cap: the limit message, no change, nothing sent; otherwise it waits the computed time and sends the prompt built from the retrieved context; success adds exactly 1 and stamps the completion time; failure changes nothing and returns " Error: " + message; the cap of 20 is preserved |

## Left out

- Floating point: scores, means and reciprocal ranks are exact `real` values, and `round` (with its banker's ties) is an uninterpreted parameter. Properties of the reported numbers assume only what the lemma states about it (monotone, keeps 0 and 1).
- Unicode: `str.lower`, `\s`, `\w` and `str.isspace` are their ASCII versions, and bytes outside ASCII are ordinary non-space, non-word characters.
- `normalize_unicode` (NFKC normalisation) and the regular expressions of `soften_ctas` in data-ingestion/linkedin/clean-linkedin.py, and that script's `main` file loop.
- Embedding, search and generation: SentenceTransformer encoding, the torch top-k of `retrieve_topk`, Qdrant and the Gemini or Bedrock calls. These are inputs (retrieved ID lists, a retriever function, a generator outcome).
- The LangChain splitter: its chunk size, overlap and separators are not modelled; `split` is an arbitrary function from text to pieces.
- Storage and process plumbing: boto3 calls, `json.dumps`/`json.loads` text, `os.walk`, file I/O, `time.time` and `time.sleep`. The clock readings and the sleep duration are parameters and results of `AskLenny`.
- Scrape.SavePosts: any `ClientError` from `head_object` (not only 404) leads to a write; the model sees only whether the key is in the bucket. The scrape Lambda's event parsing, the Apify call and its 200/500 response are not modelled, nor are failing S3 writes.
- ChunkLambda.Handle: failures of `list_objects_v2`, `get_object` and `put_object`, and pagination beyond the first listing page, are not modelled; the text of an exception (`str(e)`) is replaced by a `Failure` value naming its cause.
- Json.Display: `str()` of a list or a dict is a fixed placeholder rather than Python's rendering; post IDs, video IDs and author names that are containers therefore get a placeholder in keys and chunk IDs.
- Json: there is no float case, so a float `likes` (falsy when `0.0`), or a float `post_id` or `video_id` rendered by `str()` into keys and chunk IDs, is outside the model.
- Agent.ContextText: retrieved chunks hold only strings, so the `TypeError` that `"\n\n".join` raises on a non-string `content` or `text` (outside the `try` in src/rag-check.py) is not modelled.
- Evaluator.SearchResult: a payload whose `source` is present but null is not distinguished from a missing one, and a non-numeric score is not modelled.
- The command-line loop of src/rag-check.py, the benchmark's script-level loop over model configurations, and the prints and progress bars everywhere.
- The connection handlers, the message handler (which does not call the evaluator), the CDK stacks, the web client and the test scripts, which are cloud plumbing around the modelled core.
