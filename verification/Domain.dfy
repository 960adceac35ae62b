/** The entities that travel between the stores and the use cases. */
module Domain {
  import opened Wrappers

  /** An asset of a tenant: what every store is keyed by. */
  datatype Key = Key(asset: string, tenant: string)

  datatype Chunk = Chunk(id: string, text: string, erpModule: Option<string>)

  /** What a vector store keeps for one chunk, apart from its embedding. */
  datatype Record = Record(asset: string, tenant: string, text: string, erpModule: Option<string>)

  /** A vector is replaced when its tenant and chunk id come again. */
  datatype VectorKey = VectorKey(tenant: string, chunkId: string)

  type Vector = seq<real>

  datatype ScoredChunk =
    ScoredChunk(chunkId: string, content: string, score: real, source: string, erpModule: Option<string>)
}
