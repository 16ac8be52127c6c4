/** The query path: `QueryCommand::get_similarity` and `get_suggestions`.
    The records of the store file are given already parsed, its first
    record included; the query embedding comes from one provider call; the
    similarity of a stored row to the query embedding is the abstract
    `score`. */
module Query {
  import opened Outcomes
  import opened Numbers
  import opened Records
  import opened EmbeddingClient
  import opened Ranking

  /** How many suggestions `get_suggestions` keeps. */
  const TopK: nat := 10

  /** A stored row without its vector, as returned to the caller. */
  datatype Suggestion = Suggestion(name: string, header: string)

  /** The projection of line 159: every row's name and header, in order. */
  function Project(rows: seq<StoredRow>): (suggestions: seq<Suggestion>)
    ensures |suggestions| == |rows|
    ensures forall k :: 0 <= k < |rows| ==> suggestions[k] == Suggestion(rows[k].name, rows[k].header)
    decreases |rows|
  {
    if |rows| == 0 then [] else [Suggestion(rows[0].name, rows[0].header)] + Project(rows[1..])
  }

  /** Projecting commutes with cutting to a length. */
  lemma {:induction false} ProjectTruncate(rows: seq<StoredRow>, len: nat)
    ensures Project(Truncate(rows, len)) == Truncate(Project(rows), len)
  {
    var a := Project(Truncate(rows, len));
    var b := Truncate(Project(rows), len);
    assert |a| == |b|;
    forall k | 0 <= k < |a| ensures a[k] == b[k] {
      assert Truncate(rows, len)[k] == rows[k];
    }
  }

  /** The query's embedding (lines 154-156): the first entry of the answer
      to a one-element request. An answer without entries makes the source
      panic at `data[0]`. */
  function QueryEmbedding<V>(client: Client, query: string, send: HttpRequest -> Exchange<V>): (r: Result<seq<V>>)
    ensures r.Ok? <==> GetEmbedding(client, [query], send).Ok? && |GetEmbedding(client, [query], send).value.data| > 0
    ensures r.Ok? ==> r.value == GetEmbedding(client, [query], send).value.data[0]
    ensures GetEmbedding(client, [query], send).Err? ==> r == Err(GetEmbedding(client, [query], send).error)
  {
    match GetEmbedding(client, [query], send)
    case Err(e) => Err(e)
    case Ok(response) =>
      if |response.data| == 0 then Err(EmptyQueryResponse) else Ok(response.data[0])
  }

  /** The sort key of line 157: a row's score against the query embedding. */
  function ScoreBy<V>(score: (seq<V>, StoredRow) -> int, queryEmbedding: seq<V>): StoredRow -> int
  {
    row => score(queryEmbedding, row)
  }

  /** `get_similarity`: every row of the store file after its first
      record exactly once, highest score against the query first, projected
      to name and header; or the error of obtaining the query embedding. The
      reader is built with its default settings, which take the first
      record as the header row (`DataRecords`). */
  method GetSimilarity<V>(client: Client, storeFile: seq<Record>, query: string,
                          send: HttpRequest -> Exchange<V>, score: (seq<V>, StoredRow) -> int)
    returns (r: Result<seq<Suggestion>>, ghost ranked: seq<StoredRow>)
    requires StoreShaped(DataRecords(storeFile))
    ensures r.Err? <==> QueryEmbedding(client, query, send).Err?
    ensures r.Err? ==> r.error == QueryEmbedding(client, query, send).error
    ensures r.Ok? ==>
      multiset(ranked) == multiset(DecodeStore(DataRecords(storeFile))) &&
      NonIncreasing(ranked, ScoreBy(score, QueryEmbedding(client, query, send).value)) &&
      r.value == Project(ranked)
  {
    var rows := DecodeStore(DataRecords(storeFile));
    ranked := [];
    var response := GetEmbedding(client, [query], send);
    if response.Err? {
      r := Err(response.error);
      return;
    }
    if |response.value.data| == 0 {
      r := Err(EmptyQueryResponse);
      return;
    }
    var queryEmbedding := response.value.data[0];
    var sorted := RankDescending(rows, ScoreBy(score, queryEmbedding));
    ranked := sorted;
    r := Ok(Project(sorted));
  }

  /** `get_suggestions`: at most ten suggestions, as many as there are
      data rows in the store file when there are fewer, highest score first, each the
      projection of a distinct stored row, and no stored row left out scores
      above one kept. */
  method GetSuggestions<V>(apiKey: string, storeFile: seq<Record>, query: string,
                           send: HttpRequest -> Exchange<V>, score: (seq<V>, StoredRow) -> int)
    returns (r: Result<seq<Suggestion>>, ghost top: seq<StoredRow>)
    requires StoreShaped(DataRecords(storeFile))
    ensures r.Err? <==> QueryEmbedding(NewClient(apiKey), query, send).Err?
    ensures r.Ok? ==> |r.value| == Min(TopK, |DataRecords(storeFile)|) && r.value == Project(top)
    ensures r.Ok? ==>
      var key := ScoreBy(score, QueryEmbedding(NewClient(apiKey), query, send).value);
      multiset(top) <= multiset(DecodeStore(DataRecords(storeFile))) && NonIncreasing(top, key) &&
      forall x, y :: x in multiset(DecodeStore(DataRecords(storeFile))) - multiset(top) && y in top ==> key(x) <= key(y)
  {
    var client := NewClient(apiKey);
    var similarity;
    ghost var ranked;
    similarity, ranked := GetSimilarity(client, storeFile, query, send, score);
    top := [];
    if similarity.Err? {
      r := Err(similarity.error);
      return;
    }
    top := Truncate(ranked, TopK);
    TruncatedRankingIsTopK(ranked, DecodeStore(DataRecords(storeFile)), ScoreBy(score, QueryEmbedding(client, query, send).value), TopK);
    ProjectTruncate(ranked, TopK);
    r := Ok(Truncate(similarity.value, TopK));
  }
}
