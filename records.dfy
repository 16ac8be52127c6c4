/** Rows of the two tables, already parsed: the input table (name, header,
    body, ...) and the embedding store (name, header, joined vector). */
module Records {
  import opened VectorText

  /** One record of a parsed table: its fields in column order. */
  type Record = seq<string>

  /** Every record of the input table has a column 2; the source unwraps
      `get(0)` and `get(2)` and panics otherwise. */
  predicate HasBody(rows: seq<Record>)
  {
    forall k :: 0 <= k < |rows| ==> |rows[k]| >= 3
  }

  /** `get_content_to_embed`: the body (column 2) of every row, in order. */
  function ContentToEmbed(rows: seq<Record>): (bodies: seq<string>)
    requires HasBody(rows)
    ensures |bodies| == |rows|
    ensures forall k :: 0 <= k < |rows| ==> bodies[k] == rows[k][2]
    decreases |rows|
  {
    if |rows| == 0 then [] else [rows[0][2]] + ContentToEmbed(rows[1..])
  }

  /** `get_filename_body`: column 0 paired with column 2 of every row, in
      order. The second component is the body, and it is what the batch
      loop writes to the store as the "header". */
  function FilenameBody(rows: seq<Record>): (pairs: seq<(string, string)>)
    requires HasBody(rows)
    ensures |pairs| == |rows|
    ensures forall k :: 0 <= k < |rows| ==> pairs[k] == (rows[k][0], rows[k][2])
    decreases |rows|
  {
    if |rows| == 0 then [] else [(rows[0][0], rows[0][2])] + FilenameBody(rows[1..])
  }

  /** A row of the embedding store as `get_embedding_rows` holds it before
      the numbers are parsed: the vector is the list of its text pieces. */
  datatype StoredRow = StoredRow(name: string, header: string, vector: seq<string>)

  /** The store record written for one embedding (`write_record`): three
      columns, name, header and the vector's element strings joined with
      commas; `StoreRecordRoundTrip` reads it back. */
  function EncodeStoreRecord(name: string, header: string, vector: seq<string>): (rec: Record)
    ensures |rec| == 3 && rec[0] == name && rec[1] == header
  {
    [name, header, Join(vector)]
  }

  /** Every record of the store has three columns (`get(0..=2).unwrap()`). */
  predicate StoreShaped(records: seq<Record>)
  {
    forall k :: 0 <= k < |records| ==> |records[k]| >= 3
  }

  /** One store record as `get_embedding_rows` reads it: the pieces of
      the third column lose none of its text and hold no comma. */
  function DecodeStoreRecord(rec: Record): (row: StoredRow)
    requires |rec| >= 3
    ensures row.name == rec[0] && row.header == rec[1]
    ensures Join(row.vector) == rec[2]
    ensures |row.vector| >= 1 && CommaFree(row.vector)
  {
    JoinSplit(rec[2]);
    StoredRow(rec[0], rec[1], Split(rec[2]))
  }

  /** The records `records()` yields for a table read with the reader's
      default settings: the first record is taken as the header row and is
      not among them. */
  function DataRecords(file: seq<Record>): (data: seq<Record>)
    ensures |file| == 0 ==> data == []
    ensures |file| > 0 ==> |data| == |file| - 1
    ensures forall k :: 0 <= k < |data| ==> data[k] == file[k + 1]
  {
    if |file| == 0 then [] else file[1..]
  }

  /** The rows of the whole store, in file order. */
  function DecodeStore(records: seq<Record>): (rows: seq<StoredRow>)
    requires StoreShaped(records)
    ensures |rows| == |records|
    ensures forall k :: 0 <= k < |records| ==> rows[k] == StoredRow(records[k][0], records[k][1], Split(records[k][2]))
    decreases |records|
  {
    if |records| == 0 then [] else [DecodeStoreRecord(records[0])] + DecodeStore(records[1..])
  }

  /** Reading back a written record gives the written name, header and
      vector pieces when the vector is non-empty and no piece holds a comma;
      an empty vector is read back as a single empty piece. */
  lemma StoreRecordRoundTrip(name: string, header: string, vector: seq<string>)
    requires CommaFree(vector)
    ensures DecodeStoreRecord(EncodeStoreRecord(name, header, vector))
         == StoredRow(name, header, if |vector| == 0 then [""] else vector)
  {
    SplitJoin(vector);
  }
}
