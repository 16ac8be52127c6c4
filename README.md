# Semantic search plugin core, modelled in Dafny

This project models the core of the semantic-search plugin in `src/lib.rs`. The core has two pipelines and the provider client they share.

- **Generating embeddings** (`GenerateEmbeddingsCommand::get_embeddings`). The input table holds one row per document: name, header and body. The body column is cut into B batches of `ceil(N / B)` records, and batch B takes whatever remains. Each batch's bodies go to the embedding provider in one request. The answer's vectors are merged with the batch's (name, body) pairs by position. Each merged batch is serialised as store rows and flushed before the next batch runs.
- **Querying** (`get_suggestions`, `QueryCommand::get_similarity`). The query text goes to the provider as a one-element request, and the first vector of the answer is the query vector. Each stored row is scored against that vector. The rows are sorted ascending in place and then reversed in place. They are projected to (name, header) and truncated to ten.
- **The provider client** (`Client`). It builds a POST to `<api_base>/embeddings` with a bearer token and an optional organisation header. It sorts each answer into one of four outcomes: a response, the provider's own error, a deserialisation failure or a transport failure.

Modules, one per concern of the source:

- `Outcomes`: the error kinds of `SemanticSearchError` that the core produces, plus `Option` and `Result`. The source's two panics on reachable inputs are made explicit error variants: the slice past the end at line 69, and `data[0]` on an empty answer at line 156.
- `VectorText`: how a vector's element strings are joined with `,` when written, and how `split(",")` cuts them apart when read. Both round trips are proved.
- `Numbers`: the minimum of two counts, shared by the schedule and the ranking.
- `Records`: the column projections of the input table, the store row layout, and which records a table reader yields. With its default settings the reader takes the first record as a header row and does not yield it.
- `EmbeddingClient`: the client, its headers, the request and the classification of what comes back.
- `Batching`: the batch schedule. It comes in two forms: as the loop computes it, and as evidently intended.
- `GenerateEmbeddings`: the merge loop and the batch loop, both as methods with loop invariants, each proved against a specification function.
- `Ranking`: the in-place `sort_unstable_by` (an insertion sort on an `array`), the in-place `reverse` and `truncate`.
- `Query`: the query path.
- `Store`: what the query path reads back from the store a generation run leaves.

The network is not modelled. What the provider returns for a request is a function parameter: `exchange(batch, request)` in the batch loop, `send(request)` for the query. The value it returns records whether the transport failed and, otherwise, the status together with how the body parses as an error object and as a response. Vectors are sequences of an opaque element type `V`. `fmt: V -> string` stands for `f32::to_string`. The similarity is any function `score` from the query vector and a stored row to an integer. The file system is not modelled either. `GetEmbeddings` takes the parsed input rows and returns every buffer it flushes, in order. `GetSimilarity` takes the parsed records of the store file, its first record included.

In four places the code does something other than what it evidently means to do. The model follows the code:

- **Size of the final batch.** Batch B takes whatever remains, which reads as if batch B could be larger than the others. But batch B only starts after B-1 full batches of `ceil(N/B)`. It therefore takes at most `ceil(N/B)` records, as `Batching.PlanFromCounts` proves.
- **Coverage.** The loop is meant to embed every record, for every N and every B >= 1. It can instead slice past the end of the records (see Findings). Coverage holds exactly when the loop meets no overrunning batch (`Batching.ScheduleCovers`). It holds for every input in the corrected schedule (`Batching.CorrectedScheduleCovers`).
- **The "header" column.** A store row is meant to carry the document's header, column 1 of the input, next to its name. The code writes column 2, the body, into that position (lines 138 and 95). The model writes the body there.
- **The store's first row.** The store is written without a header row, but it is read back with a reader that takes its first record as one (lines 165-167). The first embedded record is therefore never ranked (see Findings).

## Model

| member | source | states |
|---|---|---|
| VectorText.Split | src/lib.rs:171 | `split(",")` always yields at least one piece, and no piece contains a comma |
| VectorText.Join | src/lib.rs:92 | no parts join to the empty text, one part to itself, and consecutive parts are set apart by a comma each, so the text has at least one character for each part after the first |
| VectorText.SplitJoin | src/lib.rs:91-92 | splitting the joined form of comma-free element strings gives them back; the empty vector comes back as one empty string |
| VectorText.JoinSplit | src/lib.rs:171 | joining the pieces `split(",")` produces restores the original text, for every text |
| Records.ContentToEmbed | src/lib.rs:123-131 | one body per input row, in row order: entry k is column 2 of row k |
| Records.FilenameBody | src/lib.rs:133-141 | one pair per input row, in order: column 0 of row k with column 2 of row k (not column 1) |
| Records.EncodeStoreRecord | src/lib.rs:95 | a store record has three columns: the name, then the header, then the vector text |
| Records.DecodeStoreRecord | src/lib.rs:168-171 | a store record reads back as its name and header, and vector pieces that hold no comma, are at least one, and join back to the third column unchanged |
| Records.DataRecords | src/lib.rs:165-167 | a reader with default settings yields every record but the first, in order; an empty table yields none |
| Records.DecodeStore | src/lib.rs:163-174 | one stored row per store record, in file order: name from column 0, header from column 1, vector from column 2 split at commas |
| Records.StoreRecordRoundTrip | src/lib.rs:168-171 | a store row written as name, header and the comma-joined vector reads back as the same name, header and element strings |
| EmbeddingClient.NewClient | src/lib.rs:230-232 | a new client has the given key, the default base URL and an empty organisation id |
| EmbeddingClient.Headers | src/lib.rs:234-240 | the organisation header is present exactly when the organisation id is non-empty; it carries that id and is the only header |
| EmbeddingClient.NewClientSendsNoHeaders | src/lib.rs:230-240 | a client made by `new` sends no extra header |
| EmbeddingClient.CreateEmbeddingRequest | src/lib.rs:248-255 | building the request always succeeds, with the fixed model, no user and the input unchanged |
| EmbeddingClient.BuildHttpRequest | src/lib.rs:257-265 | the request goes to the base URL followed by `/embeddings`, with the key as bearer token, the client's headers and the request as body |
| EmbeddingClient.IsSuccess | src/lib.rs:273 | a status counts as a success exactly when it is in the 2xx class |
| EmbeddingClient.PostEmbeddingRequest | src/lib.rs:267-283 | a response exactly on a 2xx status with a parseable response; a transport error exactly on transport failure; the provider's error exactly on a non-2xx status with a parseable error; a deserialisation error exactly when the body does not parse as the shape the status calls for |
| EmbeddingClient.RateLimitIsApiError | src/lib.rs:273-277 | a 429 answer with a readable error body is surfaced as the provider's error, whatever else the body parses as |
| EmbeddingClient.GetEmbedding | src/lib.rs:242-246 | the result is the classification of what comes back for the POST built from the client and the input |
| Batching.BatchSize | src/lib.rs:60 | the batch size is the least size whose B copies cover N: `size * B >= N` and `(size - 1) * B < N`, and it is positive when there are records |
| Batching.NumToProcess | src/lib.rs:63-67 | a batch takes at least one record while records remain; batch B ends exactly at the last record; every other batch takes the batch size, the least size whose B copies cover N, however few records remain |
| Batching.CursorAdvances | src/lib.rs:62-103 | after a batch that fits, the loop is again in a reachable state: the batch number is at most B while records remain, and every earlier batch took the batch size |
| Batching.PlanFrom | src/lib.rs:62-104 | from batch `batch` on, the loop runs at most `B + 1 - batch` batches |
| Batching.Schedule | src/lib.rs:62-104 | a run never goes past batch B, and with no records no batch runs and nothing overruns |
| Batching.PlanFromEnds | src/lib.rs:62-69 | the batches tile the records contiguously from the current position to where the loop stops, which is at most N; an overrunning batch starts inside the records, ends past them, takes the batch size and is not batch B |
| Batching.PlanFromCounts | src/lib.rs:63-67 | every batch but batch B takes the batch size, batch B takes the rest, and no batch exceeds the batch size |
| Batching.PlanFromShape | src/lib.rs:62-69 | both of the two rows above, from any reachable loop state |
| Batching.TilesAdjacent | src/lib.rs:102 | tiling batches, index by index: the first starts at the start of the range, each starts where the one before ends, the last ends at the end of the range |
| Batching.ScheduleIndexed | src/lib.rs:62-104 | the schedule index by index: batch 1 starts at record 0, each batch starts where the one before ends, and the sizes are those of `PlanFromCounts` |
| Batching.ScheduleSteps | src/lib.rs:62-104 | the schedule is a plan the loop can walk step by step: each next batch starts where the previous ended and has the size lines 63-67 compute, and the walk ends at N or at the overrunning batch |
| Batching.PlanNext | src/lib.rs:63-69 | from a position short of N, the slice the loop takes next is either the plan's next batch, after which the position is where it ends, or the plan's overrun |
| Batching.PlanEnd | src/lib.rs:62 | once the position reaches N, every batch of the plan has run and nothing overruns |
| Batching.TilesWithin | src/lib.rs:69 | tiling batches lie inside the tiled range, each after the one before |
| Batching.TilesFlatten | src/lib.rs:69 | the slices of tiling batches, concatenated, are exactly the tiled range of the records, in order |
| Batching.ScheduleCovers | src/lib.rs:62-104 | when no batch overruns, the batches start at record 0, are contiguous, and together hold every record exactly once, in order |
| Batching.OverrunFiveRecordsFourBatches | src/lib.rs:63-69 | 5 records in 4 batches: batches of 2, and batch 3 slices records 4 to 6 of 5 |
| Batching.FourRecordsThreeBatches | src/lib.rs:62-104 | 4 records in 3 batches: two batches of 2 run and batch 3 is never reached |
| Batching.CorrectedPlanFromShape | src/lib.rs:63-67 | the corrected batches tile the records from the current position to N, run at most `B + 1 - batch` batches and never exceed the batch size |
| Batching.CorrectedScheduleCovers | src/lib.rs:63-69 | for every N and every B >= 1, the corrected schedule runs at most B batches and holds every record exactly once, in order |
| Batching.PlanFromAgreesWhenInBounds | src/lib.rs:62-104 | whenever the loop as written meets no overrun, it runs exactly the corrected schedule |
| GenerateEmbeddings.WriteRecord | src/lib.rs:95 | the record written for a position has three columns, with the name and the body the pair for that position holds in the first two |
| GenerateEmbeddings.Format | src/lib.rs:91 | one element string per vector element, in order |
| GenerateEmbeddings.Assemble | src/lib.rs:80-96 | the merge succeeds exactly when the response and the (name, body) pairs both have an entry for every position of the batch; then position k is record `start + k`'s name and body with response entry k; otherwise it is a "cannot find matching" error |
| GenerateEmbeddings.ExtraEmbeddingsIgnored | src/lib.rs:88 | response entries past the batch's inputs do not affect the merge |
| GenerateEmbeddings.AssembleBatch | src/lib.rs:80-96 | the loop over the batch's inputs returns the merge `Assemble` specifies, including which error it stops at |
| GenerateEmbeddings.RunBatch | src/lib.rs:72-96 | a batch that succeeds flushes one record per input; a merge failure of a scheduled batch is always the missing-embedding error, never the missing-filename one |
| GenerateEmbeddings.RunBatchOutcome | src/lib.rs:72-96 | a batch fails with the provider call's error, or else exactly when the answer has fewer entries than the batch has inputs, and then names the first input without one |
| GenerateEmbeddings.MergedRecordsFollowRows | src/lib.rs:80-96 | a merge that succeeds has one record per input, and record k is input row `from + k`'s name, its body, and the comma-joined answer entry k |
| GenerateEmbeddings.RunBatchPositional | src/lib.rs:72-96 | on success the answer was a response, and record k of the batch is input row `start + k`'s name, its body, and the comma-joined response entry k |
| GenerateEmbeddings.ProcessBatch | src/lib.rs:72-98 | one pass of the loop body, once the slice is taken, returns the buffer or error `RunBatch` specifies |
| GenerateEmbeddings.GetEmbeddings | src/lib.rs:50-108 | the k-th flushed buffer is batch k+1 of the schedule; the run succeeds exactly when every scheduled batch is flushed and none overruns; a failure is the first failing batch's error, with nothing of it flushed, or the slice-out-of-bounds of the overrunning batch |
| GenerateEmbeddings.BatchLoop | src/lib.rs:62-104 | for any plan the loop can walk step by step, the k-th flushed buffer is batch k+1 of the plan; the run succeeds exactly when every planned batch is flushed and none overruns; a failure is the first failing batch's error or the overrun's slice-out-of-bounds |
| GenerateEmbeddings.FlattenFollowsTiles | src/lib.rs:95 | buffers that follow tiling batches, concatenated, name the input rows of the tiled range in order |
| GenerateEmbeddings.SuccessfulRunWritesRecordsInOrder | src/lib.rs:55-104 | a successful run follows the corrected schedule and writes one record per input row, and the i-th record over the whole run carries row i's name and body, across batch boundaries |
| Ranking.Reversed | src/lib.rs:158 | element k of the reversal is element `len - 1 - k` |
| Ranking.ReversedMultiset | src/lib.rs:158 | reversing keeps every element, as often as it occurs |
| Ranking.ReversedAscending | src/lib.rs:157-158 | reversing an ascending order gives a non-increasing one |
| Ranking.SortUnstableBy | src/lib.rs:157 | after the sort the array is ascending by score and a permutation of what it held |
| Ranking.InsertAt | src/lib.rs:157 | moving one element down into a sorted prefix leaves the prefix one longer and sorted, leaves every cell after it unchanged, and permutes the array |
| Ranking.Swap | src/lib.rs:157 | exchanging two cells changes only those two cells, and permutes the array |
| Ranking.Reverse | src/lib.rs:158 | the in-place reversal leaves exactly the reversed contents |
| Ranking.RankDescending | src/lib.rs:157-158 | sort then reverse yields every row exactly as often as before, highest score first |
| Ranking.Truncate | src/lib.rs:196 | truncating keeps the first `min(len, n)` elements, in order, and adds nothing |
| Ranking.TruncatedRankingIsTopK | src/lib.rs:196 | cutting a ranking to `len` keeps `min(len, n)` of the rows, still highest first, and no row left out scores above a row kept |
| Query.Project | src/lib.rs:159 | one suggestion per row, in order, with that row's name and header |
| Query.ProjectTruncate | src/lib.rs:159 | projecting commutes with truncating |
| Query.QueryEmbedding | src/lib.rs:154-156 | the query vector is the first entry of the answer to the one-element request; a failed call is passed on; an answer without entries is an error |
| Query.GetSimilarity | src/lib.rs:152-171 | on success every row of the store file after its first record appears exactly once, highest score against the query vector first, projected to name and header; otherwise the error is that of obtaining the query vector |
| Query.GetSuggestions | src/lib.rs:190-198 | on success, `min(10, rows)` suggestions, where rows does not count the store file's first record, highest score first, each projecting a distinct stored row, and no stored row left out scores above one kept; it fails exactly when obtaining the query vector fails |
| Store.FirstEmbeddingNeverRead | src/lib.rs:165-171 | after a successful run, the store read back holds one row fewer than there are input records, and row k names input record k + 1 with its body as header: the first record embedded is lost |
| Store.EveryEmbeddingReadWithoutHeader | src/lib.rs:165-171 | read without a header row, the store a successful run leaves holds one row per input record, and row k names input record k with its body as header |

## Left out

- File I/O is not modelled: deleting the store, reading the input and store files, and writing each batch (line 101). A failure of any of these I/O calls is not modelled either. `GetEmbeddings` returns the flushed buffers, in order. `Store` takes each write to append, as the store is meant to be built batch by batch; whether `write_to_path` appends or replaces is up to `FileProcessor`, which is not part of this model.
- Table parsing and writing are not modelled: trimming, strict column counts, quoting, and the errors of `csv` and `from_utf8`. Rows arrive already split into fields.
- A row with fewer than three fields makes `get(n).unwrap()` panic (lines 128, 138 and 169-171). The model requires every row to have three fields.
- `GetEmbeddings` takes the records that follow the input table's header row (lines 124-125 and 134-135 read the input with the same default reader as the store). Whether the input file starts with a header row is up to `generate_input`, which is not part of this model.
- `GetEmbeddings`: the `get_filename_body` re-parse of the input on every batch (line 76) is modelled as one projection of the same rows, which it equals.
- `GetEmbeddings`: requires B >= 1. With B = 0 the source's float division and saturating cast come into play, and the model leaves that out.
- `BatchSize`: computed exactly as `ceil(N / B)` on unbounded integers. This leaves out `f64` rounding for N above 2^53 and `usize` overflow in `num_processed + num_to_process`.
- Floating point is not modelled. That covers the `f32` vectors, `f32::to_string`, `parse::<f32>().unwrap()` on stored tokens (a token that does not parse panics), `cosine_similarity` (lines 177-181), and the `partial_cmp(..).unwrap()` panic on NaN scores. The score is an arbitrary integer-valued function of a row.
- `Headers`: the panic of `parse().unwrap()` on an organisation id that is not a valid header value is not modelled. `new` never sets one.
- `get_input_cost_estimate`, `get_query_cost_estimate` and the tokenizer (lines 110-116 and 200-206) are left out: they are cost estimates over an external tokenizer.
- `check_embedding_file_exists` (lines 118-121) is left out: it is a pure file-system probe.
- Left out with the host: the wasm bindings, `onload`, logging, `JsString`/`JsValue` conversion and their `unwrap`s, and result serialisation (line 197).
- The `embedding`, `error`, `file_processor`, `obsidian` and `generate_input` modules are not part of this model. Only the fields of their types that the core reads are modelled.

## Findings

| source | as written | input that shows it | evidently intended | confidence | as-written member | corrected member |
|---|---|---|---|---|---|---|
| src/lib.rs:63-69 | every batch before batch B takes `ceil(N/B)` records even when fewer remain, so the slice at line 69 can end past N and panic before batch B is reached | N = 5 records, B = 4 batches: the batch size is 2, and batch 3 slices records 4 to 6 of 5 | a batch takes the batch size or, if fewer remain, the rest, so every record is embedded exactly once in at most B batches | not executed; the schedule for this input is proved by evaluation of the model | Batching.OverrunFiveRecordsFourBatches | Batching.CorrectedScheduleCovers |
| src/lib.rs:165-167 | the store is read with the reader's default settings, which take the first record as a header row, but every batch appends records with no header row (line 95), so the first record embedded is never read back or ranked | a run over 3 input records writes 3 store records; the query reads back 2 rows and returns 2 suggestions | the store is read with `has_headers(false)`, so every embedded record is read back and ranked | not executed; relies on the csv crate's `ReaderBuilder` defaulting to a header row | Store.FirstEmbeddingNeverRead | Store.EveryEmbeddingReadWithoutHeader |
