/** The embedding store between the two pipelines. Every buffer a
    generation run flushes is appended to the store file, and no header row
    is ever written to it; the query path reads it back with the reader's
    default settings, which take the first record as the header row. */
module Store {
  import opened Records
  import opened EmbeddingClient
  import opened Batching
  import opened GenerateEmbeddings

  /** The store a successful run leaves, read back as the query path reads
      it, lacks the first input record: row k read back names input record
      k + 1 and carries its body as header, and no row names input record 0
      unless a later input record has the same name. */
  lemma FirstEmbeddingNeverRead<V>(client: Client, rows: seq<Record>, numBatches: nat,
                                   exchange: (nat, HttpRequest) -> Exchange<V>, fmt: V -> string,
                                   writes: seq<seq<Record>>)
    requires HasBody(rows) && numBatches >= 1 && |rows| >= 1
    requires Schedule(|rows|, numBatches).overrun.None?
    requires |writes| == |Schedule(|rows|, numBatches).spans|
    requires Flushed(client, rows, Schedule(|rows|, numBatches).spans, writes, exchange, fmt)
    ensures StoreShaped(DataRecords(Flatten(writes)))
    ensures |DecodeStore(DataRecords(Flatten(writes)))| == |rows| - 1
    ensures forall k :: 0 <= k < |rows| - 1 ==>
      DecodeStore(DataRecords(Flatten(writes)))[k].name == rows[k + 1][0] &&
      DecodeStore(DataRecords(Flatten(writes)))[k].header == rows[k + 1][2]
  {
    SuccessfulRunWritesRecordsInOrder(client, rows, numBatches, exchange, fmt, writes);
    var file := Flatten(writes);
    var data := DataRecords(file);
    forall k | 0 <= k < |data|
      ensures |data[k]| >= 3 && data[k][0] == rows[k + 1][0] && data[k][1] == rows[k + 1][2]
    {
      assert data[k] == file[k + 1];
    }
  }

  /** Read without a header row (`has_headers(false)`), the store a
      successful run leaves gives back one row per input record, in input
      order: row k names input record k and carries its body as header. */
  lemma EveryEmbeddingReadWithoutHeader<V>(client: Client, rows: seq<Record>, numBatches: nat,
                                           exchange: (nat, HttpRequest) -> Exchange<V>, fmt: V -> string,
                                           writes: seq<seq<Record>>)
    requires HasBody(rows) && numBatches >= 1
    requires Schedule(|rows|, numBatches).overrun.None?
    requires |writes| == |Schedule(|rows|, numBatches).spans|
    requires Flushed(client, rows, Schedule(|rows|, numBatches).spans, writes, exchange, fmt)
    ensures StoreShaped(Flatten(writes))
    ensures |DecodeStore(Flatten(writes))| == |rows|
    ensures forall k :: 0 <= k < |rows| ==>
      DecodeStore(Flatten(writes))[k].name == rows[k][0] &&
      DecodeStore(Flatten(writes))[k].header == rows[k][2]
  {
    SuccessfulRunWritesRecordsInOrder(client, rows, numBatches, exchange, fmt, writes);
  }
}
