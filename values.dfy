/** The raw values the services exchange, and the values shared between the modules. */
module Values {
  /** File contents, as stored and downloaded. */
  type Bytes = seq<bv8>

  /** A vector of the embedding model. */
  type Embedding = seq<real>

  /** The model that embeds both the stored chunks and the chat query. */
  const EmbeddingModel := "text-embedding-004"

  /** The `status` of a `documents` row: just recorded, and fully ingested. */
  const UploadingStatus := "uploading"
  const ProcessedStatus := "processed"
}
