# RAG chatbot backend: a Dafny model of its bookkeeping

The system is a small retrieval-augmented chatbot backend. It works like this:

- Uploaded PDF text is cut into overlapping windows of whitespace tokens.
- The windows go into a retrieval index: a metadata table keyed by string ids plus a reserved `"dim"` key, a TF-IDF corpus, and stored vectors.
- A question retrieves the nearest chunks. These are numbered into a character-budgeted context and wrapped in chat messages with a persona prompt and a short history. The messages are answered by an LLM, synchronously or as a stream.
- The stream passes through a splitter that never releases a `[n]` citation marker torn in two.
- Around this sit:
  - a per-session chat memory of bounded deques;
  - a per-IP token-bucket rate limiter;
  - per-user usage counters;
  - the HTTP endpoints' own checks: ingest lengths, clamping of `k`, delete arguments, grouping by source, and citation lists.

The model keeps each part in the form the code has:

- Code that updates state in place becomes classes: `RagIndex`, `SessionMemory`, `RateLimiter`, `Tracker`.
- Loops become methods. Each is proved equal to a specification function.
- Decisions and strings become functions.
- Lemmas state what the code promises about those functions.
- Embeddings, the nearest-neighbour search, the LLM, clocks and the environment are parameters:
  - A stored vector is represented by the text it embeds.
  - The search is a ranking oracle.
  - The provider is an abstract reply, or a stream of deltas that completes or breaks off.
  - Times are `real` parameters.

Modules, in dependency order:

- `Wrappers`: `Option` and `Result`.
- `Text`: Python string operations as the code uses them. These are `split()`, `" ".join`, `strip()` and ASCII `lower()`; slicing with clamped and negative bounds; `rfind`; and `str < str`.
- `Records`: retrieved hits and their metas.
- `Chunker`: `chunk_text`.
- `Stream`: the citation-safe splitter.
- `Prompt`: `_build_messages`.
- `Answer`: `llm_status`, `ping_llm`, `synthesize_answer` and `stream_synthesize_answer`.
- `MetaStore`: the `id_to_meta` table.
- `Rag`: `RAGIndex`.
- `Memory`: `SessionMemory`.
- `RateLimit`: `allow`.
- `Analytics`: the counters.
- `Api`: the endpoint helpers of `main.py`.

## Model

| member | source | states |
|---|---|---|
| Chunker.ChunkText | backend/app/pdf_utils.py:32-43 | The loop yields exactly `Chunks(text, chunkSize, overlap)`. Chunk `j` is the space-joined token window starting at token `j * (chunkSize - overlap)`. Text without tokens yields no chunks for any parameters. Otherwise the loop requires `overlap < chunkSize`, without which it never ends. |
| Chunker.BlankTextNoChunks | backend/app/pdf_utils.py:34-36 | Empty or whitespace-only text yields no chunks, whatever the chunk size and overlap. |
| Chunker.ChunkCount | backend/app/pdf_utils.py:38-42 | The number of chunks is `ceil(n / step)`, where `n` is the token count and `step = chunkSize - overlap`. |
| Chunker.ChunksFromCount | backend/app/pdf_utils.py:39-42 | The loop from token `i` makes `c` windows: the last one starts before the end, and one more step would pass it. |
| Chunker.ChunkStart | backend/app/pdf_utils.py:39-42 | Chunk `j` starts at token `j * step`, which lies inside the text. The chunk is the join of the window of `chunkSize` tokens from there. |
| Chunker.ChunkAt | backend/app/pdf_utils.py:39-41 | Each chunk holds between 1 and `chunkSize` tokens and is never empty. Splitting the chunk again gives back exactly its tokens. |
| Chunker.ConsecutiveOverlap | backend/app/pdf_utils.py:40-42 | Suppose the next window still covers the overlap range. Then the last `overlap` tokens of a full chunk are the first `overlap` tokens of the next one. |
| Chunker.WindowOverlap | backend/app/pdf_utils.py:40-42 | Two windows `size - overlap` apart share exactly `overlap` tokens. |
| Text.SplitJoin | backend/app/pdf_utils.py:36-41 | Splitting a space-joined run of non-blank, space-free tokens gives the tokens back. |
| Text.SplitTokens | backend/app/pdf_utils.py:36 | `split()` produces only non-empty tokens free of whitespace. |
| Text.LStripCut | backend/app/llm.py:163 | Every character `lstrip()` removes is whitespace. |
| Text.RStripCut | backend/app/llm.py:163 | Every character `rstrip()` removes is whitespace. |
| Text.StripTrims | backend/app/llm.py:163 | `strip()` cuts a string into leading whitespace, the result, and trailing whitespace: the result is the run of characters that starts after the leading whitespace. |
| Text.StripEmptyIffAllSpace | backend/app/llm.py:273 | `strip()` is empty exactly when the string is all whitespace. |
| Text.ClampIndex | backend/app/llm.py:214 | A Python slice bound is clamped to `[0, len]`. A negative bound counts from the end. |
| Text.Prefix | backend/app/llm.py:214 | `s[:n]` is a prefix of `s` of length `min(n, len)` for `n >= 0`. |
| Text.Suffix | backend/app/memory.py:27 | `s[-n:]` is a suffix of `s` of length `min(n, len)` for `n > 0`. |
| Text.LastIndexOf | backend/app/llm.py:311-312 | `rfind` returns -1 or the position of the last occurrence. Nothing after that position is the character. |
| Text.StrLessTotal | backend/app/main.py:246 | Python string order is total. |
| Text.StrLessTransitive | backend/app/main.py:246 | Python string order is transitive. |
| Stream.FeedDelta | backend/app/llm.py:306-321 | One turn of the loop releases and keeps exactly what `Feed` describes. |
| Stream.SplitStream | backend/app/llm.py:304-323 | The whole loop plus the final flush yields exactly `Units(deltas)`. |
| Stream.FeedConcat | backend/app/llm.py:309-321 | One turn loses and invents nothing: the released text, then the buffer, equals the old buffer plus the delta. |
| Stream.FeedShape | backend/app/llm.py:307-321 | One turn keeps the buffer empty or holding an unclosed `[...` fragment. It releases at most one unit, and never an empty one. When it releases nothing, the delta is appended. A unit ending inside an open bracket leaves a `[...` buffer behind. |
| Stream.DrainConcat | backend/app/llm.py:305-321 | Over all deltas, the released text followed by the buffer equals the start buffer plus every delta. |
| Stream.DrainShape | backend/app/llm.py:305-321 | Over all deltas, the buffer stays `""` or an unclosed `[...` fragment, and no released unit is empty. |
| Stream.DrainSafe | backend/app/llm.py:310-321 | Between two consecutive released units, a unit that ends inside an open bracket is followed by one that starts a new `[`. |
| Stream.UnitsConcat | backend/app/llm.py:304-323 | The yielded units concatenate to the concatenation of all deltas. |
| Stream.UnitsNonEmpty | backend/app/llm.py:304-323 | No yielded unit is empty. |
| Stream.UnitsSafe | backend/app/llm.py:310-323 | Every boundary between yielded units is safe, including the final flush. |
| Stream.MarkerNotTorn | backend/app/llm.py:310 | At a safe boundary, a unit ending in `[` plus digits is not followed by more digits or by `]`. So no `[n]` marker is split across units. |
| Stream.SplitExample | backend/app/llm.py:304-323 | The stream `"see source ["`, `"12] for details"` yields `"see source "`, then `"[12] for details"`. |
| Prompt.AssembleContext | backend/app/llm.py:207-220 | The loop over the retrieved items yields exactly `Context(rs, limit, budget)`. |
| Prompt.ContextLines | backend/app/llm.py:209-215 | Context line `k` is `"[p+1] " + text[:limit]`. Here `p` is the position in the results of the `k`-th item with text. Items without text are skipped without renumbering. |
| Prompt.DefaultContextWithin | backend/app/llm.py:205-206 | With the default limits (800 characters per chunk, 5000 in all), the context lines add up to at most 5000 characters. |
| Prompt.ContextBudget | backend/app/llm.py:216-219 | The lines' total length stays within the budget. The first line left out is one that would have overflowed it. |
| Prompt.ContextFromFit | backend/app/llm.py:209-219 | The loop equals cutting the candidate lines to the budget. |
| Prompt.FitPrefix | backend/app/llm.py:216-218 | The budget keeps a prefix of the candidate lines. |
| Prompt.FitWithinBudget | backend/app/llm.py:216-219 | The kept lines fit the budget. |
| Prompt.FitMaximal | backend/app/llm.py:216-217 | The line after the kept ones would overflow the budget. |
| Prompt.PositionsExact | backend/app/llm.py:209-212 | The numbered positions are increasing and are exactly the positions of items with non-empty text. |
| Prompt.CandidateAt | backend/app/llm.py:209-215 | Candidate `k` is the line of the `k`-th item with text, numbered by its 1-based position. |
| Prompt.PersonaIgnoresCase | backend/app/llm.py:222 | Persona names that agree after lower-casing select the same preset. |
| Prompt.PersonaDefault | backend/app/llm.py:222-255 | These all select the concise preset: no persona, an empty one, or one whose lower-cased name is not `bullets`, `step-by-step` or `formal`. |
| Prompt.AppendKept | backend/app/llm.py:269-274 | The history loop appends exactly the kept entries, stripped, in order. |
| Prompt.BuildMessages | backend/app/llm.py:196-276 | The built message list is `Messages(...)`: the system prompt, the kept history among the last 10 entries, then the user prompt. |
| Prompt.KeptHistoryShape | backend/app/llm.py:270-274 | Kept history never outgrows its input. Every kept message has role user or assistant and stripped, non-empty text. |
| Prompt.KeptHistoryAppend | backend/app/llm.py:270-274 | Filtering distributes over concatenation of the history. |
| Prompt.OlderHistoryIgnored | backend/app/llm.py:270 | Entries older than the last 10 never reach the messages. |
| Prompt.MessagesShape | backend/app/llm.py:257-276 | The first message is the chosen preset's system prompt and the last is the user prompt starting `Context:\n`. In between sit at most 10 clean history messages. |
| Answer.ModelName | backend/app/llm.py:66 | The model is the override when one is given. Otherwise it is `OPENAI_MODEL`, or `gpt-3.5-turbo-0125` when that is unset. |
| Answer.LlmStatus | backend/app/llm.py:60-73 | Readiness requires both the SDK and a non-empty key; a reason is given exactly when not ready. A missing SDK reports that first, and a missing key reports that. |
| Answer.Ping | backend/app/llm.py:76-115 | When not ready, the result is `llm_status`'s answer. A ready call that succeeds is ok with no reason. A failure always carries a reason. A failure is ok exactly when its first 500 characters are classed as rate-limited. Any other failure reports not ok, with those 500 characters as its reason. |
| Answer.PingRateLimited | backend/app/llm.py:109-114 | Suppose an error mentions `rate limit` or `rate_limit`, in any case, within its first 500 characters. Then the ping reports ok with reason `rate_limited: ` plus those 500 characters. |
| Answer.PingRateLimitedError | backend/app/llm.py:111-114 | The whole ping result for an error whose 500-character cut is rate-limited. |
| Answer.PingOtherFailure | backend/app/llm.py:111-115 | The whole ping result for any other error: not ok, with the 500-character cut as reason. |
| Answer.RateLimitedWithin | backend/app/llm.py:111-113 | The rate-limit phrase survives the 500-character cut when it lies inside it. |
| Answer.Texts | backend/app/llm.py:182 | Item `k` of the context list is the text of retrieved item `k`, or `""`. |
| Answer.ErrorHead | backend/app/llm.py:183-186 | An empty error gives `(LLM unavailable or misconfigured)`. Otherwise the head is `(LLM error: `, then the first `min(200, len(error))` characters of the error, then `)`. |
| Answer.Synthesize | backend/app/llm.py:118-193 | `used_chunks` lists every retrieved meta in order. Without the SDK or a key, the answer is the context summary with the question. |
| Answer.AnsweredTrimmed | backend/app/llm.py:162-163 | A model answer is the reply's content (`""` when absent) with leading and trailing whitespace removed. It is the run of the content's characters after its leading whitespace, everything cut on either side is whitespace, and it neither starts nor ends with whitespace. |
| Answer.FailedShowsContext | backend/app/llm.py:176-188 | A failed call answers with the error head, then ` Showing retrieved context only.\n\n`, then the chunk texts joined by blank lines. |
| Answer.StreamAnswer | backend/app/llm.py:279-381 | Without the SDK or a key, the stream is the single summary answer. |
| Answer.StreamCompleted | backend/app/llm.py:304-324 | A stream that completes yields exactly the model's text, in non-empty, marker-safe units. |
| Answer.StreamBrokeOff | backend/app/llm.py:355-377 | A stream that breaks off keeps what was already released, which is a prefix of the model's text. It then adds one unit: the rate-limit notice for a rate-limit error, otherwise the synchronous fallback answer. |
| Answer.StreamRateLimited | backend/app/llm.py:361-374 | An error containing the rate-limit phrase ends the stream with the rate-limit notice. |
| MetaStore.TableCount | backend/app/rag.py:332-334 | In a well-formed table, the number of keys other than `"dim"` is the number of chunks. |
| MetaStore.AssignTable | backend/app/rag.py:165-179 | Storing new metas from id `n` on gives a well-formed table of `n + m` metas: the old ones, then the new. The `"dim"` entry is untouched. |
| MetaStore.NewMeta | backend/app/rag.py:167-178 | A stored meta keeps the given source and chunk. In dense mode it is the given meta. A non-dict argument becomes `{"source": str(m)}`. |
| MetaStore.RenumberTable | backend/app/rag.py:191-199 | Renumbering gives keys `"0".."n-1"` holding the kept metas in their original order, with no `"dim"`. |
| MetaStore.PresentAll | backend/app/rag.py:196-203 | The collected texts equal the kept metas in number exactly when every kept meta has text, and then they are those texts in order. |
| MetaStore.KeptByIdsCount | backend/app/rag.py:252-264 | Kept plus removed is everything: the removed count is the number of existing ids that were listed. |
| MetaStore.KeptByIdsMembers | backend/app/rag.py:252-262 | Every unlisted meta is kept, and nothing else. |
| MetaStore.KeptBySourceCount | backend/app/rag.py:270-279 | Kept plus removed is everything: the removed count is the number of metas from the source. |
| MetaStore.KeptBySourceMembers | backend/app/rag.py:270-277 | Exactly the metas from other sources are kept. |
| MetaStore.Listing | backend/app/rag.py:319-327 | The listing pairs each meta with its integer id, in ascending id order. |
| Rag.StoreMetas | backend/app/rag.py:165-179 | The loop stores argument `i` under id `start + i`, as `Assign` describes. |
| Rag.RenumberMetas | backend/app/rag.py:191-199 | The loop yields the renumbered table and the texts present. |
| Rag.SelectByIds | backend/app/rag.py:252-262 | The loop keeps the metas whose ids are not listed, in id order, and counts every id. |
| Rag.SelectBySource | backend/app/rag.py:270-277 | The loop keeps the metas from other sources, in id order, and counts every id. |
| Rag.DenseRows | backend/app/rag.py:146-157 | After a dense ingestion, the old rows are followed by the new ones. |
| Rag.DenseRowsAsWrittenLoseRows | backend/app/rag.py:151-157 | As written, a second dense ingestion without FAISS leaves one row for two ids. |
| Rag.RagIndex.constructor | backend/app/rag.py:43-57 | A new index is empty and consistent. |
| Rag.RagIndex.Count | backend/app/rag.py:332-334 | `count()` is the number of stored chunks. |
| Rag.RagIndex.AddTexts | backend/app/rag.py:128-183 | An empty list changes nothing. Otherwise new ids start after the existing ones. In TF-IDF mode the corpus is extended, re-embedded whole and copied into the new metas. In dense mode the new rows follow the old ones (`Rag.DenseRows`). This holds in the source only with FAISS; see Findings. `"dim"` is set. The table holds the old metas followed by the new, and the index stays consistent. |
| Rag.RagIndex.Rebuild | backend/app/rag.py:185-245 | In dense mode, a kept meta without text raises before anything changes. Otherwise the kept metas are renumbered from 0 in order. The dense rows become their texts and the corpus is cleared. In TF-IDF mode the corpus becomes their texts with `""` where missing, and `"dim"` is 0 when nothing is kept. The result is the kept count. The new state is `RebuiltFrom(kept, dim)`. |
| Rag.RagIndex.RemoveByIds | backend/app/rag.py:247-264 | The metas with unlisted ids are kept in order. The result is the number of existing ids listed. The error case is the one `Rebuild` raises. Otherwise the index is rebuilt from the kept metas: renumbered table and `"dim"`, corpus and rows as `Rebuild` sets them. |
| Rag.RagIndex.RemoveBySource | backend/app/rag.py:266-279 | The metas from other sources are kept in order. The result is the number of metas from the source. The error case is the one `Rebuild` raises. Otherwise the index is rebuilt from the kept metas: renumbered table and `"dim"`, corpus and rows as `Rebuild` sets them. |
| Rag.RagIndex.GetMetas | backend/app/rag.py:315-330 | The stored metas with their ids, in ascending id order, cut as `metas[:limit]` cuts, negative limits included. |
| Rag.RagIndex.Query | backend/app/rag.py:281-313 | These cases give no results: an empty TF-IDF corpus, or no stored vectors without FAISS. Otherwise the `min(k, rows)` nearest rows are reported with their distances and stored metas. |
| Memory.BoundedAppend | backend/app/memory.py:17-18 | Appending to a bounded deque keeps at most `maxlen` entries, ending with the new one. They are the newest entries, in order. |
| Memory.BoundedDropsOldest | backend/app/memory.py:17-18 | Appending to a full deque drops exactly its oldest pair. |
| Memory.BoundedKeepsAll | backend/app/memory.py:17-18 | Appending to a deque with room loses nothing. |
| Memory.FlattenPairs | backend/app/memory.py:28-34 | The message loop yields exactly `Flatten(pairs)`. |
| Memory.SessionMemory.constructor | backend/app/memory.py:10-12 | A new memory is empty with the given bound. |
| Memory.SessionMemory.AddTurn | backend/app/memory.py:14-18 | An empty session id is a no-op. Otherwise the pair, with missing texts stored as `""`, is appended to the session's bounded deque, which is created if new. No other session changes, and every deque stays within the bound. |
| Memory.SessionMemory.GetHistoryMessages | backend/app/memory.py:20-34 | An empty or unknown session gives `[]`. Otherwise the result is the messages of the last `limit_pairs or max_turns` pairs. |
| Memory.SessionMemory.Clear | backend/app/memory.py:36-38 | Only the given session is removed. An unknown one is a no-op. |
| Memory.FlattenShape | backend/app/memory.py:28-34 | At most two messages per pair. Each has role user or assistant and non-empty text. |
| Memory.FlattenAlternates | backend/app/memory.py:28-34 | Pairs with both texts give user, assistant, user, assistant, ... in pair order. |
| Memory.FlattenAppend | backend/app/memory.py:28-34 | Flattening distributes over concatenation. |
| Memory.DefaultHistoryBound | backend/app/memory.py:7-27 | A memory with the default bound of 5 pairs, read without a pair limit, gives at most 10 messages. |
| Memory.HistoryBound | backend/app/memory.py:27-34 | The history holds at most twice as many messages as the stored pairs. It also holds at most twice the pair limit when the limit is not negative. |
| Memory.HistoryIsSuffix | backend/app/memory.py:27 | The history is the tail of the session's messages picked by the limit. |
| RateLimit.Trunc | backend/app/rate_limit.py:21-29 | `int(x)` truncates toward zero. |
| RateLimit.RateLimiter.constructor | backend/app/rate_limit.py:6 | No address has a bucket at first. |
| RateLimit.RateLimiter.Allow | backend/app/rate_limit.py:9-29 | The request is allowed exactly when the refilled tokens cover the cost. Then the tokens drop by the cost, the wait is 0, and the remaining count is the integer part. When denied, the tokens stay at the refilled value and the wait is `(cost - tokens) / rate`. Either way the bucket is stamped `now` and only this address changes. |
| RateLimit.NewAddressFull | backend/app/rate_limit.py:18-20 | An unseen address starts with a full bucket. |
| RateLimit.RefillBounds | backend/app/rate_limit.py:17-20 | Refilling never exceeds the capacity. On a clock that does not run backwards it never loses tokens. |
| RateLimit.DeniedWaitPositive | backend/app/rate_limit.py:26-27 | A denied request is told to wait a positive time. |
| RateLimit.RetryAfterSuffices | backend/app/rate_limit.py:20-27 | Retrying after the advertised wait finds enough tokens whenever the cost fits the capacity. |
| RateLimit.AllowKeepsSettled | backend/app/rate_limit.py:20-28 | With non-negative costs no bucket ever holds negative tokens. |
| Analytics.Tracker.constructor | backend/app/analytics.py:8 | No user has a record at first. |
| Analytics.Tracker.EnsureUser | backend/app/analytics.py:14-25 | An unknown user gets a zeroed record stamped `now`. A known user's record is returned unchanged. |
| Analytics.Tracker.RecordSession | backend/app/analytics.py:28-31 | A session event is recorded for the user. |
| Analytics.Tracker.RecordQuery | backend/app/analytics.py:34-39 | A query event is recorded, marked as using the LLM or not. |
| Analytics.Tracker.RecordUpload | backend/app/analytics.py:42-45 | An upload event is recorded for the user. |
| Analytics.Tracker.GetProfile | backend/app/analytics.py:48-49 | The user's record is returned. An unknown user gets a zeroed one, which is created. |
| Analytics.RecordCounts | backend/app/analytics.py:28-45 | An event bumps exactly its own counter, and `llm_queries` only for an LLM query. `last_seen` becomes `now`. Every other counter and every other user is unchanged. |
| Analytics.RecordConsistent | backend/app/analytics.py:14-45 | Each record stays filed under its own id, with no more LLM queries than queries. |
| Analytics.EnsureIdempotent | backend/app/analytics.py:15 | Looking a user up again creates nothing. |
| Analytics.ReplayCounts | backend/app/analytics.py:34-39 | Over any run of events, `queries` counts the query events and `llm_queries` those that used the LLM. |
| Api.IngestMetas | backend/app/main.py:93-96 | A missing or empty metas list becomes one empty dict per text. Otherwise the lengths must match, or the request fails with `texts and metas length mismatch`. |
| Api.Ingest | backend/app/main.py:90-98 | A mismatch changes nothing. Otherwise the result is the number of texts, and the index is `add_texts`'s new state: the old metas followed by the new ones, the corpus extended in TF-IDF mode, the rows extended, and FAISS switched on in dense mode when available. An empty list changes nothing. |
| Api.Admit | backend/app/main.py:105-107 | The client address, or `unknown`, is charged the endpoint's cost (5 with the LLM, 1 without, 10 streaming) against a 60-token, 60-second bucket. Admission holds exactly when the refilled tokens cover the cost. The decision's `remaining` and `retry_after`, and the address's new bucket, are those of `allow`. |
| Api.FullBucketAdmits | backend/app/main.py:106-107 | A client idle for a full window is admitted at any endpoint. |
| Api.ClampK | backend/app/main.py:112-116 | `min(k, max_k)`, with `max_k` defaulting to 6. |
| Api.ClampedQuery | backend/app/main.py:112-116 | A clamped query returns no more than `max_k` and no more than `k` results. |
| Api.DeleteTarget | backend/app/main.py:191-197 | The request is rejected unless an id or a non-empty source is given. The id wins when both are. |
| Api.RemovedOne | backend/app/main.py:194-195 | Deleting one id removes one chunk if the id exists, and none otherwise. |
| Api.Delete | backend/app/main.py:185-218 | A missing argument changes nothing. Otherwise the result is the number of chunks removed: 1 or 0 for an id, the source's count for a source. The index is rebuilt from the metas the removal keeps, in order (table, `"dim"`, corpus and rows). When TF-IDF is off and a kept meta has no text, the request fails with `MissingText` and changes nothing. |
| Api.GroupBySource | backend/app/main.py:240-247 | One group per distinct source, a missing source counting under `""`. Groups are sorted ascending, each count is the source's number of metas, and `total_chunks` is the number of metas. |
| Api.IndexGrouped | backend/app/main.py:232-249 | The grouping over all stored metas. `total_chunks` is the index size. |
| Api.BumpCount | backend/app/main.py:245 | Counting one meta raises exactly its source's count. |
| Api.SortCount | backend/app/main.py:246 | Sorting keeps every count. |
| Api.SortSorted | backend/app/main.py:246 | Sorting distinct sources gives strictly ascending order. |
| Api.InsertSorted | backend/app/main.py:246 | Inserting a new source keeps the order strict. |
| Api.Citations | backend/app/main.py:311-321 | Citations are numbered 1..N in result order, with source, chunk and score copied. Each preview is the first 200 characters of the text: exactly 200 characters when the text is longer, all of it otherwise. |

## Left out

- The network calls to the LLM provider are not modelled, and neither is client construction. A reply is a parameter: content or an error text. A stream is a sequence of deltas that completes or breaks off.
- The legacy-SDK copy of the splitter loop is identical to the current one and is modelled once.
- The regex extraction of a wait hint from a rate-limit error is a parameter `hint` of `Answer.StreamAnswer`.
- Sentence embeddings, TF-IDF vectors, FAISS and sklearn neighbours are not modelled. Each stored row is the text it embeds, the search is a ranking oracle with its distances, and `"dim"` is a parameter.
- `Rag.RagIndex.Query` does not model the skipped `-1` FAISS padding entries. Nor does it model the lazy TF-IDF refit.
- Loading and saving the index (JSON, `np.save`, FAISS files) is file I/O and is not modelled. PDF text extraction is a foreign parser.
- FastAPI routing, SSE framing, logging, telemetry prints and dotenv loading are not modelled.
- The endpoints' `try/except` fallbacks are not modelled.
- The order in which `/query` and the stream endpoints call memory, the LLM and analytics is not modelled.
- Clocks and ISO timestamps are parameters (`now`). Float arithmetic in the rate limiter is exact `real` arithmetic.
- Module-level singletons and concurrent access are not modelled.
- Analytics.Tracker.EnsureUser: the Python record is a shared dict that callers mutate through the returned reference. The model returns a value and writes the updated record back.
- RateLimit.RateLimiter.Allow: requires `capacity > 0` and `perSeconds > 0`. A zero `per_seconds` raises in the source, and a zero rate divides by zero on denial.
- Memory.SessionMemory.constructor: `max_turns` is a `nat`, since a negative `maxlen` raises.
- Api.MaxK: parsing `RAG_MAX_K` is abstracted to an optional integer. An absent or unparsable value gives 6.
- Prompt.PersonaKey: `lower()` is modelled for ASCII letters only. Other characters cannot lower to an ASCII persona name.
- Answer.RateLimited: the rate-limit check lowers the message with the same ASCII-only `lower()`. This is exact for the phrases it looks for, `rate limit` and `rate_limit`. Besides the ASCII capitals, the only characters whose `lower()` holds an ASCII letter are the Kelvin sign, which gives `k` (absent from both phrases), and the dotted capital I. That one gives `i` followed by a combining dot, which cannot sit inside either phrase.
- MetaStore.NewMeta: a meta is modelled with only its `source`, `chunk` and `text` keys. Other keys are not carried.
- MetaStore.NewMeta: a meta whose `text` key holds an explicit `None` is read as having text `""`. In the source, the fallback join of `synthesize_answer` (backend/app/llm.py:182 and 191) would raise `TypeError` on it.
- Rag.RagIndex.AddTexts: in dense mode the new rows are appended to the old ones, as with FAISS. The source without FAISS replaces the matrix with the new batch alone (see Findings).
- Rag.RagIndex.constructor: requires that TF-IDF mode and FAISS are not both on. The source imports `TfidfVectorizer` only when FAISS is missing (backend/app/rag.py:28-29) but calls it in TF-IDF mode (backend/app/rag.py:53), so that combination raises `NameError`.
- Rag.RagIndex.RemoveByIds: the kept metas are read by ascending id `0..n-1`, while the source walks `id_to_meta.items()` in insertion order. On every consistent table (`Valid()`) the two orders agree, because ids are inserted in ascending order. The same holds for `Rag.RagIndex.RemoveBySource`.
- Rag.RagIndex.GetMetas: an `"id"` key inside a stored meta would override the listed id in the source. It is not modelled.
- Chunker.ChunkText: requires `overlap < chunkSize` when the text has at least one token. The source does not check this, and for any other pair its loop never ends. Empty or whitespace-only text is accepted with any parameters.

## Findings

| source | as written | input that shows it | evidently intended | confidence | as-written member | corrected member |
|---|---|---|---|---|---|---|
| backend/app/rag.py:151-157 | In dense mode without FAISS, `add_texts` replaces the stored embedding matrix with the new batch alone, while the new ids continue after the old ones. | Two successive `add_texts(["a"], …)`, `add_texts(["b"], …)`: one row remains for ids 0 and 1, so chunk "b" is reported under id 0's meta. | Append the new embeddings to the stored ones, as the FAISS branch does, so that row `i` embeds the chunk with id `i`. With this, `Rag.RagIndex.AddTexts` keeps `|rows| == size` in `Valid()`. | not executed | Rag.DenseRowsAsWrittenLoseRows | Rag.DenseRows |
