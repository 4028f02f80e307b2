/** The default configuration values the read-time pipeline depends on (config/settings.py). */
module Settings {

  /** Number of chunks requested from the vector index when the caller gives no `k`. */
  const RagTopK: int := 5

  /** Largest vector distance a retrieved chunk may have and still be used. */
  const RagMaxDistance: real := 0.7

  /** Number of most recent messages read back from a conversation. */
  const ConversationHistoryLimit: int := 10

  /** The only source document the vector search is scoped to. */
  const CvSource: string := "MH_CV.pdf"
}
