/** The error kinds surfaced by the embedding pipeline and the query path,
    and the wrappers that carry them. */
module Outcomes {

  datatype Option<+T> = None | Some(value: T)

  /** Which side of the positional merge had no entry for a batch position. */
  datatype Missing =
    /** No (name, header) pair for the position; the source reports the
        batch-local index, not the record index. */
    | MissingFilename(index: nat)
    /** No embedding in the response for the position. */
    | MissingEmbedding(filename: string, header: string)

  datatype SearchError =
    | GetEmbeddingsError(missing: Missing)
    /** A non-success status whose body parsed as the provider's error object. */
    | ApiError(detail: string)
    /** A body that parsed as neither shape it was read as. */
    | JsonDeserialize
    /** Building, sending or reading the HTTP exchange failed. */
    | Transport
    /** The source panics here: a batch slice that runs past the records. */
    | SliceOutOfBounds(start: nat, end: nat, len: nat)
    /** The source panics here: the query response holds no embedding. */
    | EmptyQueryResponse

  datatype Result<+T> = Ok(value: T) | Err(error: SearchError)
}
