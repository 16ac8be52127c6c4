/** `GenerateEmbeddingsCommand::get_embeddings`: the batch loop that sends
    the body of every input record to the provider, merges each answer
    positionally with the records' (name, body) pairs, and flushes one
    buffer of store records per batch. The file reads and writes are not
    modelled as I/O: the parsed input rows are a parameter and every flushed
    buffer is returned, in flush order. */
module GenerateEmbeddings {
  import opened Outcomes
  import opened VectorText
  import opened Records
  import opened EmbeddingClient
  import opened Batching

  /** The element strings of an embedding, one per element, in order. */
  function Format<V>(embedding: seq<V>, fmt: V -> string): (parts: seq<string>)
    ensures |parts| == |embedding|
    ensures forall k :: 0 <= k < |embedding| ==> parts[k] == fmt(embedding[k])
    decreases |embedding|
  {
    if |embedding| == 0 then [] else [fmt(embedding[0])] + Format(embedding[1..], fmt)
  }

  /** The store record written for one position: name, "header", vector. */
  function WriteRecord<V>(fileHeader: (string, string), embedding: seq<V>, fmt: V -> string): (rec: Record)
    ensures |rec| == 3 && rec[0] == fileHeader.0 && rec[1] == fileHeader.1
  {
    EncodeStoreRecord(fileHeader.0, fileHeader.1, Format(embedding, fmt))
  }

  /** The merge of lines 80-96 as a value. Position `k` of the batch pairs
      record `numProcessed + k` of `filenameBody` with entry `k` of the
      response; the merge fails exactly when either side lacks an entry for
      some position, and reports the first such position, the file side
      being looked at first. */
  function Assemble<V>(filenameBody: seq<(string, string)>, numProcessed: nat, input: seq<string>,
                       data: seq<seq<V>>, fmt: V -> string): (r: Result<seq<Record>>)
    ensures r.Ok? <==> |input| <= |data| && (|input| > 0 ==> numProcessed + |input| <= |filenameBody|)
    ensures r.Ok? ==> |r.value| == |input|
    ensures r.Ok? ==> forall k :: 0 <= k < |input| ==>
      r.value[k] == WriteRecord(filenameBody[numProcessed + k], data[k], fmt)
    ensures r.Err? ==> r.error.GetEmbeddingsError?
    ensures r.Err? && numProcessed + |input| <= |filenameBody| ==>
      var at := filenameBody[numProcessed + |data|];
      r.error == GetEmbeddingsError(MissingEmbedding(at.0, at.1))
  {
    var named := if |filenameBody| >= numProcessed then |filenameBody| - numProcessed else 0;
    if named < |input| && named <= |data| then
      Err(GetEmbeddingsError(MissingFilename(named)))
    else if |data| < |input| then
      var fileHeader := filenameBody[numProcessed + |data|];
      Err(GetEmbeddingsError(MissingEmbedding(fileHeader.0, fileHeader.1)))
    else
      Ok(seq(|input|, k requires 0 <= k < |input| => WriteRecord(filenameBody[numProcessed + k], data[k], fmt)))
  }

  /** Response entries past the batch's inputs are never looked at. */
  lemma ExtraEmbeddingsIgnored<V>(filenameBody: seq<(string, string)>, numProcessed: nat, input: seq<string>,
                                  data: seq<seq<V>>, fmt: V -> string)
    requires |input| <= |data|
    ensures Assemble(filenameBody, numProcessed, input, data, fmt)
         == Assemble(filenameBody, numProcessed, input, data[..|input|], fmt)
  {
    var a := Assemble(filenameBody, numProcessed, input, data, fmt);
    var b := Assemble(filenameBody, numProcessed, input, data[..|input|], fmt);
    if a.Ok? {
      assert a.value == b.value;
    }
  }

  /** The `for` loop over a batch's inputs, writing one record per position
      into the batch's buffer, or returning at the first missing entry. */
  method AssembleBatch<V>(filenameBody: seq<(string, string)>, numProcessed: nat, input: seq<string>,
                          data: seq<seq<V>>, fmt: V -> string) returns (r: Result<seq<Record>>)
    ensures r == Assemble(filenameBody, numProcessed, input, data, fmt)
  {
    var buffer: seq<Record> := [];
    var i := 0;
    while i < |input|
      invariant 0 <= i <= |input|
      invariant i > 0 ==> numProcessed + i <= |filenameBody|
      invariant i <= |data|
      invariant |buffer| == i
      invariant forall k :: 0 <= k < i ==> buffer[k] == WriteRecord(filenameBody[numProcessed + k], data[k], fmt)
    {
      var recordIdx := numProcessed + i;
      if recordIdx >= |filenameBody| {
        return Err(GetEmbeddingsError(MissingFilename(i)));
      }
      var fileHeader := filenameBody[recordIdx];
      if i >= |data| {
        return Err(GetEmbeddingsError(MissingEmbedding(fileHeader.0, fileHeader.1)));
      }
      buffer := buffer + [WriteRecord(fileHeader, data[i], fmt)];
      i := i + 1;
    }
    r := Ok(buffer);
    assert r.value == Assemble(filenameBody, numProcessed, input, data, fmt).value;
  }

  /** The bodies a batch sends: the scheduled slice of the records' bodies. */
  function BatchInput(rows: seq<Record>, span: Span): seq<string>
    requires HasBody(rows) && span.start + span.count <= |rows|
  {
    ContentToEmbed(rows)[span.start..span.start + span.count]
  }

  /** The classified answer to batch number `batch`. */
  function BatchResponse<V>(client: Client, rows: seq<Record>, span: Span, batch: nat,
                            exchange: (nat, HttpRequest) -> Exchange<V>): Result<EmbeddingResponse<V>>
    requires HasBody(rows) && span.start + span.count <= |rows|
  {
    PostEmbeddingRequest(exchange(batch, BuildHttpRequest(client, EmbeddingRequest(EmbeddingModel, BatchInput(rows, span), None))))
  }

  /** One iteration of the batch loop for an in-bounds batch: the buffer
      it flushes, or the error it returns before flushing anything. */
  function RunBatch<V>(client: Client, rows: seq<Record>, span: Span, batch: nat,
                       exchange: (nat, HttpRequest) -> Exchange<V>, fmt: V -> string): (r: Result<seq<Record>>)
    requires HasBody(rows) && span.start + span.count <= |rows|
    ensures r.Ok? ==> |r.value| == span.count
    ensures r.Err? && r.error.GetEmbeddingsError? ==> r.error.missing.MissingEmbedding?
  {
    var records := BatchInput(rows, span);
    match CreateEmbeddingRequest(records)
    case Err(e) => Err(e)
    case Ok(request) =>
      match PostEmbeddingRequest(exchange(batch, BuildHttpRequest(client, request)))
      case Err(e) => Err(e)
      case Ok(response) => Assemble(FilenameBody(rows), span.start, request.input, response.data, fmt)
  }

  /** How a batch ends. It fails with the provider call's error when that
      call fails, and otherwise exactly when the response has fewer entries
      than the batch has inputs, naming the first input without one; a
      missing name is never the error, as every scheduled index has one. */
  lemma RunBatchOutcome<V>(client: Client, rows: seq<Record>, span: Span, batch: nat,
                           exchange: (nat, HttpRequest) -> Exchange<V>, fmt: V -> string)
    requires HasBody(rows) && span.start + span.count <= |rows|
    ensures var r := RunBatch(client, rows, span, batch, exchange, fmt);
      var response := BatchResponse(client, rows, span, batch, exchange);
      (response.Err? ==> r == Err(response.error)) &&
      (response.Ok? ==>
         (r.Ok? <==> |response.value.data| >= span.count) &&
         (r.Err? ==> r == Err(GetEmbeddingsError(MissingEmbedding(rows[span.start + |response.value.data|][0],
                                                                 rows[span.start + |response.value.data|][2])))))
  {
    var r := RunBatch(client, rows, span, batch, exchange, fmt);
    var fb := FilenameBody(rows);
    var input := BatchInput(rows, span);
    var response := BatchResponse(client, rows, span, batch, exchange);
    if response.Ok? {
      var data := response.value.data;
      assert r == Assemble(fb, span.start, input, data, fmt);
      if |data| < span.count {
        var at := span.start + |data|;
        assert fb[at] == (rows[at][0], rows[at][2]);
      }
    }
  }

  /** A merge that succeeds pairs position k with input row `from + k`:
      its name, its body, and the comma-joined entry k of the answer. */
  lemma MergedRecordsFollowRows<V>(rows: seq<Record>, from: nat, input: seq<string>, data: seq<seq<V>>, fmt: V -> string)
    requires HasBody(rows) && Assemble(FilenameBody(rows), from, input, data, fmt).Ok?
    ensures var written := Assemble(FilenameBody(rows), from, input, data, fmt).value;
      |written| == |input| <= |data| &&
      forall k :: 0 <= k < |input| ==>
        written[k] == [rows[from + k][0], rows[from + k][2], Join(Format(data[k], fmt))]
  {
    var fb := FilenameBody(rows);
    var written := Assemble(fb, from, input, data, fmt).value;
    forall k | 0 <= k < |input|
      ensures written[k] == [rows[from + k][0], rows[from + k][2], Join(Format(data[k], fmt))]
    {
      assert written[k] == WriteRecord(fb[from + k], data[k], fmt);
      assert fb[from + k] == (rows[from + k][0], rows[from + k][2]);
    }
  }

  /** Positional correlation within a batch. The k-th record a batch
      flushes takes its name and "header" from input record `span.start + k`
      (column 0, and the body in column 2) and its vector from entry k of
      the response, whose extra entries are ignored. */
  lemma RunBatchPositional<V>(client: Client, rows: seq<Record>, span: Span, batch: nat,
                              exchange: (nat, HttpRequest) -> Exchange<V>, fmt: V -> string)
    requires HasBody(rows) && span.start + span.count <= |rows|
    ensures var r := RunBatch(client, rows, span, batch, exchange, fmt);
      var response := BatchResponse(client, rows, span, batch, exchange);
      r.Ok? ==>
        response.Ok? && |r.value| == span.count &&
        forall k :: 0 <= k < span.count ==>
          r.value[k] == [rows[span.start + k][0], rows[span.start + k][2], Join(Format(response.value.data[k], fmt))]
  {
    var r := RunBatch(client, rows, span, batch, exchange, fmt);
    var fb := FilenameBody(rows);
    var input := BatchInput(rows, span);
    var response := BatchResponse(client, rows, span, batch, exchange);
    RunBatchOutcome(client, rows, span, batch, exchange, fmt);
    if r.Ok? {
      var data := response.value.data;
      assert r == Assemble(fb, span.start, input, data, fmt);
      assert |input| == span.count;
      MergedRecordsFollowRows(rows, span.start, input, data, fmt);
    }
  }

  /** The body of the batch loop once the batch's slice is taken: build
      the request, send it, merge the answer into the batch's buffer. */
  method ProcessBatch<V>(client: Client, rows: seq<Record>, records: seq<string>, span: Span, batch: nat,
                         exchange: (nat, HttpRequest) -> Exchange<V>, fmt: V -> string)
    returns (r: Result<seq<Record>>)
    requires HasBody(rows) && span.start + span.count <= |rows|
    requires records == BatchInput(rows, span)
    ensures r == RunBatch(client, rows, span, batch, exchange, fmt)
  {
    // The builder has every field set, so `build()?` never returns here.
    var request := CreateEmbeddingRequest(records).value;
    var response := PostEmbeddingRequest(exchange(batch, BuildHttpRequest(client, request)));
    if response.Err? {
      return Err(response.error);
    }
    var filenameBody := FilenameBody(rows);
    r := AssembleBatch(filenameBody, span.start, request.input, response.value.data, fmt);
  }

  /** `writes` are the buffers of the first `|writes|` batches of `spans`,
      each flushed as `RunBatch` computes it. */
  ghost predicate Flushed<V>(client: Client, rows: seq<Record>, spans: seq<Span>, writes: seq<seq<Record>>,
                             exchange: (nat, HttpRequest) -> Exchange<V>, fmt: V -> string)
    requires HasBody(rows)
  {
    |writes| <= |spans| &&
    forall j {:trigger writes[j]} :: 0 <= j < |writes| ==>
      spans[j].start + spans[j].count <= |rows| && RunBatch(client, rows, spans[j], j + 1, exchange, fmt) == Ok(writes[j])
  }

  /** How a run that walked `plan` ends: the k-th flushed buffer is batch
      k+1 of the plan as `RunBatch` computes it; the run succeeds exactly
      when every planned batch is flushed and none overruns the records;
      otherwise its error is the first failing batch's, or the overrun,
      and nothing of that batch is flushed. */
  ghost predicate Outcome<V>(client: Client, rows: seq<Record>, plan: Plan, result: Result<()>, writes: seq<seq<Record>>,
                             exchange: (nat, HttpRequest) -> Exchange<V>, fmt: V -> string)
    requires HasBody(rows)
  {
    Flushed(client, rows, plan.spans, writes, exchange, fmt) &&
    (result.Ok? <==> |writes| == |plan.spans| && plan.overrun.None?) &&
    (result.Err? && |writes| < |plan.spans| ==>
       var span := plan.spans[|writes|];
       span.start + span.count <= |rows| &&
       RunBatch(client, rows, span, |writes| + 1, exchange, fmt) == Err(result.error)) &&
    (result.Err? && |writes| == |plan.spans| ==>
       plan.overrun.Some? &&
       result.error == SliceOutOfBounds(plan.overrun.value.start, plan.overrun.value.start + plan.overrun.value.count, |rows|))
  }

  /** `get_embeddings` from the point the input rows are parsed. `writes`
      holds every buffer flushed, in order. The run follows `Schedule`:
      the k-th flushed buffer is batch k+1 of the schedule as `RunBatch`
      computes it; the run succeeds exactly when every scheduled batch is
      flushed and no batch overruns the records; otherwise its error is the
      first failing batch's, or the overrun, and nothing of that batch is
      flushed. */
  method GetEmbeddings<V>(client: Client, rows: seq<Record>, numBatches: nat,
                          exchange: (nat, HttpRequest) -> Exchange<V>, fmt: V -> string)
    returns (result: Result<()>, writes: seq<seq<Record>>)
    requires HasBody(rows) && numBatches >= 1
    ensures Flushed(client, rows, Schedule(|rows|, numBatches).spans, writes, exchange, fmt)
    ensures result.Ok? <==>
      |writes| == |Schedule(|rows|, numBatches).spans| && Schedule(|rows|, numBatches).overrun.None?
    ensures result.Err? && |writes| < |Schedule(|rows|, numBatches).spans| ==>
      var span := Schedule(|rows|, numBatches).spans[|writes|];
      span.start + span.count <= |rows| &&
      RunBatch(client, rows, span, |writes| + 1, exchange, fmt) == Err(result.error)
    ensures result.Err? && |writes| == |Schedule(|rows|, numBatches).spans| ==>
      var overrun := Schedule(|rows|, numBatches).overrun;
      overrun.Some? && result.error == SliceOutOfBounds(overrun.value.start, overrun.value.start + overrun.value.count, |rows|)
  {
    var batchSize := BatchSize(|rows|, numBatches);
    ghost var plan := Schedule(|rows|, numBatches);
    ScheduleSteps(|rows|, numBatches);
    result, writes := BatchLoop(client, rows, numBatches, batchSize, exchange, fmt, plan);
  }

  /** The `while` loop of `get_embeddings` (lines 62-104), for a batch
      size whose batch-by-batch plan is `plan`. */
  method BatchLoop<V>(client: Client, rows: seq<Record>, numBatches: nat, batchSize: nat,
                      exchange: (nat, HttpRequest) -> Exchange<V>, fmt: V -> string, ghost plan: Plan)
    returns (result: Result<()>, writes: seq<seq<Record>>)
    requires HasBody(rows) && PlanSteps(plan, |rows|, numBatches, batchSize)
    ensures Outcome(client, rows, plan, result, writes, exchange, fmt)
  {
    var stringRecords := ContentToEmbed(rows);
    var numProcessed := 0;
    var batch := 1;
    var numRecords := |rows|;
    writes := [];

    while numProcessed < numRecords
      invariant |writes| <= |plan.spans| && batch == |writes| + 1
      invariant numProcessed == StartOf(plan, |writes|, numRecords)
      invariant Flushed(client, rows, plan.spans, writes, exchange, fmt)
      decreases numRecords - numProcessed
    {
      var numToProcess := if batch == numBatches then numRecords - numProcessed else batchSize;
      PlanNext(plan, numRecords, numBatches, batchSize, |writes|);
      if numProcessed + numToProcess > numRecords {
        result := Err(SliceOutOfBounds(numProcessed, numProcessed + numToProcess, numRecords));
        OverrunOutcome(client, rows, plan, result, writes, exchange, fmt);
        return;
      }
      var span := Span(numProcessed, numToProcess);
      var records := stringRecords[numProcessed..numProcessed + numToProcess];
      var buffer := ProcessBatch(client, rows, records, span, batch, exchange, fmt);
      if buffer.Err? {
        result := Err(buffer.error);
        FailedOutcome(client, rows, plan, result, writes, exchange, fmt);
        return;
      }
      FlushedExtend(client, rows, plan.spans, writes, exchange, fmt, buffer.value);
      writes := writes + [buffer.value];
      numProcessed := numProcessed + numToProcess;
      batch := batch + 1;
    }
    result := Ok(());
    PlanEnd(plan, numRecords, numBatches, batchSize, |writes|);
  }

  lemma OverrunOutcome<V>(client: Client, rows: seq<Record>, plan: Plan, result: Result<()>, writes: seq<seq<Record>>,
                          exchange: (nat, HttpRequest) -> Exchange<V>, fmt: V -> string)
    requires HasBody(rows) && Flushed(client, rows, plan.spans, writes, exchange, fmt)
    requires |writes| == |plan.spans| && plan.overrun.Some?
    requires result == Err(SliceOutOfBounds(plan.overrun.value.start, plan.overrun.value.start + plan.overrun.value.count, |rows|))
    ensures Outcome(client, rows, plan, result, writes, exchange, fmt)
  {
  }

  lemma FailedOutcome<V>(client: Client, rows: seq<Record>, plan: Plan, result: Result<()>, writes: seq<seq<Record>>,
                         exchange: (nat, HttpRequest) -> Exchange<V>, fmt: V -> string)
    requires HasBody(rows) && Flushed(client, rows, plan.spans, writes, exchange, fmt) && |writes| < |plan.spans|
    requires plan.spans[|writes|].start + plan.spans[|writes|].count <= |rows|
    requires result.Err? && RunBatch(client, rows, plan.spans[|writes|], |writes| + 1, exchange, fmt) == Err(result.error)
    ensures Outcome(client, rows, plan, result, writes, exchange, fmt)
  {
  }

  lemma FlushedExtend<V>(client: Client, rows: seq<Record>, spans: seq<Span>, writes: seq<seq<Record>>,
                         exchange: (nat, HttpRequest) -> Exchange<V>, fmt: V -> string, buffer: seq<Record>)
    requires HasBody(rows) && Flushed(client, rows, spans, writes, exchange, fmt) && |writes| < |spans|
    requires spans[|writes|].start + spans[|writes|].count <= |rows|
    requires RunBatch(client, rows, spans[|writes|], |writes| + 1, exchange, fmt) == Ok(buffer)
    ensures Flushed(client, rows, spans, writes + [buffer], exchange, fmt)
  {
    var extended := writes + [buffer];
    forall j | 0 <= j < |extended|
      ensures spans[j].start + spans[j].count <= |rows| && RunBatch(client, rows, spans[j], j + 1, exchange, fmt) == Ok(extended[j])
    {
      if j < |writes| {
        assert extended[j] == writes[j];
      }
    }
  }

  /** The records of a buffer name input records `from`, `from + 1`, ...
      in order, each by its column 0 and with its body as "header". */
  predicate NamesRecordsFrom(written: seq<Record>, rows: seq<Record>, from: nat)
    requires HasBody(rows)
  {
    from + |written| <= |rows| &&
    forall k :: 0 <= k < |written| ==>
      |written[k]| == 3 && written[k][0] == rows[from + k][0] && written[k][1] == rows[from + k][2]
  }

  lemma {:induction false} FlattenFollowsTiles(writes: seq<seq<Record>>, spans: seq<Span>, rows: seq<Record>, from: nat, to: nat)
    requires HasBody(rows) && Tiles(spans, from, to) && to <= |rows| && |writes| == |spans|
    requires forall j :: 0 <= j < |spans| ==>
      |writes[j]| == spans[j].count && NamesRecordsFrom(writes[j], rows, spans[j].start)
    ensures |Flatten(writes)| == to - from
    ensures NamesRecordsFrom(Flatten(writes), rows, from)
    decreases |spans|
  {
    TilesWithin(spans, from, to);
    if |spans| > 0 {
      var mid := spans[0].start + spans[0].count;
      assert forall j :: 0 <= j < |spans| - 1 ==> writes[1..][j] == writes[j + 1] && spans[1..][j] == spans[j + 1];
      FlattenFollowsTiles(writes[1..], spans[1..], rows, mid, to);
      var flat := Flatten(writes);
      assert flat == writes[0] + Flatten(writes[1..]);
      forall k | 0 <= k < |flat|
        ensures |flat[k]| == 3 && flat[k][0] == rows[from + k][0] && flat[k][1] == rows[from + k][2]
      {
        if k >= |writes[0]| {
          assert flat[k] == Flatten(writes[1..])[k - |writes[0]|];
          assert mid + (k - |writes[0]|) == from + k;
        }
      }
    }
  }

  /** A successful run follows the corrected schedule and flushes one
      record per input record, in input order: the i-th record flushed over the whole run names input record
      i and carries its body as "header", across batch boundaries. */
  lemma SuccessfulRunWritesRecordsInOrder<V>(client: Client, rows: seq<Record>, numBatches: nat,
                                             exchange: (nat, HttpRequest) -> Exchange<V>, fmt: V -> string,
                                             writes: seq<seq<Record>>)
    requires HasBody(rows) && numBatches >= 1
    requires Schedule(|rows|, numBatches).overrun.None?
    requires |writes| == |Schedule(|rows|, numBatches).spans|
    requires Flushed(client, rows, Schedule(|rows|, numBatches).spans, writes, exchange, fmt)
    ensures Schedule(|rows|, numBatches).spans == CorrectedSchedule(|rows|, numBatches)
    ensures |Flatten(writes)| == |rows|
    ensures NamesRecordsFrom(Flatten(writes), rows, 0)
  {
    var spans := Schedule(|rows|, numBatches).spans;
    PlanFromAgreesWhenInBounds(|rows|, numBatches, 0, 1);
    ScheduleCovers(rows, numBatches);
    forall j | 0 <= j < |spans|
      ensures |writes[j]| == spans[j].count && NamesRecordsFrom(writes[j], rows, spans[j].start)
    {
      RunBatchPositional(client, rows, spans[j], j + 1, exchange, fmt);
    }
    FlattenFollowsTiles(writes, spans, rows, 0, |rows|);
  }
}
