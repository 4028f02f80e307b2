/**
 * The retrieval layer (services/embedding_service.py): semantic search is embedding + vector
 * search + a client-side distance filter, and the context formatter renders the surviving hits
 * for the generation prompt. Embedding and vector search are oracles.
 */
module Retrieval {
  import opened Wrappers
  import opened Settings
  import opened Strings

  /** The `document` of an index hit; a field the index did not return is `None`. */
  datatype Document = Document(section: Option<string>, text: Option<string>)

  /** One hit returned by the vector index: an optional `vector_distance` and an optional
      `document`. */
  datatype Hit = Hit(vectorDistance: Option<real>, document: Option<Document>)

  type Vector = seq<real>

  /** The two external calls semantic search makes: the embedding of a text, and the nearest
      neighbours of a vector given `k` and a source filter. Both may raise. */
  datatype VectorIndex = VectorIndex(
    embed: string -> Result<Vector>,
    search: (Vector, int, string) -> Result<seq<Hit>>)

  // ---------------------------------------------------------------------------------------------
  // Distance filter

  /** The distance the filter compares, 1.0 when the hit carries none. */
  function Distance(h: Hit): real {
    h.vectorDistance.GetOr(1.0)
  }

  predicate IsRelevant(h: Hit, maxDistance: real) {
    Distance(h) <= maxDistance
  }

  /** `a` is `b` with some elements left out, the rest in their original order. */
  predicate IsSubsequence<T(==)>(a: seq<T>, b: seq<T>)
    decreases |b|
  {
    if a == [] then true
    else if b == [] then false
    else if a[0] == b[0] then IsSubsequence(a[1..], b[1..])
    else IsSubsequence(a, b[1..])
  }

  /** The list comprehension keeping the hits whose distance is at most `maxDistance`: every hit
      kept is relevant, every relevant hit is kept, and the order is that of the index. */
  function FilterRelevant(hits: seq<Hit>, maxDistance: real): (kept: seq<Hit>)
    ensures |kept| <= |hits|
    ensures forall k :: 0 <= k < |kept| ==> IsRelevant(kept[k], maxDistance)
    ensures forall k :: 0 <= k < |hits| && IsRelevant(hits[k], maxDistance) ==> hits[k] in kept
    ensures IsSubsequence(kept, hits)
  {
    if hits == [] then []
    else
      var rest := FilterRelevant(hits[1..], maxDistance);
      assert forall k :: 1 <= k < |hits| ==> hits[k] == hits[1..][k - 1];
      if IsRelevant(hits[0], maxDistance) then [hits[0]] + rest else rest
  }

  /** Filtering distributes over concatenation: each hit is judged on its own. */
  lemma {:induction false} FilterConcat(a: seq<Hit>, b: seq<Hit>, maxDistance: real)
    ensures FilterRelevant(a + b, maxDistance) == FilterRelevant(a, maxDistance) + FilterRelevant(b, maxDistance)
  {
    if a != [] {
      assert (a + b)[1..] == a[1..] + b;
      FilterConcat(a[1..], b, maxDistance);
    } else {
      assert a + b == b;
    }
  }

  /** A list whose hits are all relevant passes the filter unchanged. */
  lemma {:induction false} FilterKeepsRelevantList(hits: seq<Hit>, maxDistance: real)
    requires forall k :: 0 <= k < |hits| ==> IsRelevant(hits[k], maxDistance)
    ensures FilterRelevant(hits, maxDistance) == hits
  {
    if hits != [] {
      FilterKeepsRelevantList(hits[1..], maxDistance);
    }
  }

  /** Filtering an already filtered list changes nothing. */
  lemma FilterIdempotent(hits: seq<Hit>, maxDistance: real)
    ensures FilterRelevant(FilterRelevant(hits, maxDistance), maxDistance) == FilterRelevant(hits, maxDistance)
  {
    FilterKeepsRelevantList(FilterRelevant(hits, maxDistance), maxDistance);
  }

  /** With the configured threshold 0.7, a hit without a distance (treated as 1.0) is dropped. */
  lemma {:induction false} MissingDistanceDropped(hits: seq<Hit>)
    ensures forall k :: 0 <= k < |FilterRelevant(hits, RagMaxDistance)| ==>
      FilterRelevant(hits, RagMaxDistance)[k].vectorDistance.Some?
  {
    var kept := FilterRelevant(hits, RagMaxDistance);
    forall k | 0 <= k < |kept| ensures kept[k].vectorDistance.Some? {
      assert IsRelevant(kept[k], RagMaxDistance);
    }
  }

  // ---------------------------------------------------------------------------------------------
  // Semantic search

  /** `k = k or self.top_k`: an absent or zero `k` becomes the configured top-k. */
  function EffectiveK(k: Option<int>): int {
    if k.None? || k.value == 0 then RagTopK else k.value
  }

  /** `semantic_search(question, k)`: embed the question, ask the index for `k` neighbours within
      the CV source, keep the relevant ones. An error of either call propagates. */
  function SemanticSearch(index: VectorIndex, question: string, k: Option<int>): (r: Result<seq<Hit>>)
    ensures index.embed(question).Failure? ==> r == Failure(index.embed(question).error)
    ensures index.embed(question).Success? ==>
      var raw := index.search(index.embed(question).value, EffectiveK(k), CvSource);
      && (raw.Failure? ==> r == Failure(raw.error))
      && (raw.Success? ==>
            && r == Success(FilterRelevant(raw.value, RagMaxDistance))
            && |r.value| <= |raw.value|
            && IsSubsequence(r.value, raw.value)
            && (forall j :: 0 <= j < |r.value| ==> Distance(r.value[j]) <= RagMaxDistance)
            && (forall j :: 0 <= j < |raw.value| && IsRelevant(raw.value[j], RagMaxDistance) ==>
                  raw.value[j] in r.value))
  {
    var topK := EffectiveK(k);
    var queryVector :- index.embed(question);
    var hits :- index.search(queryVector, topK, CvSource);
    Success(FilterRelevant(hits, RagMaxDistance))
  }

  /** Asking with no `k`, with `k = 0` or with the configured top-k is the same search. */
  lemma FalsyKUsesTopK(index: VectorIndex, question: string)
    ensures SemanticSearch(index, question, None) == SemanticSearch(index, question, Some(RagTopK))
    ensures SemanticSearch(index, question, Some(0)) == SemanticSearch(index, question, Some(RagTopK))
  {
  }

  // ---------------------------------------------------------------------------------------------
  // Context formatting

  /** `hit.get('document', {}).get('section', 'unknown')`. */
  function Section(h: Hit): string {
    match h.document
    case None => "unknown"
    case Some(d) => d.section.GetOr("unknown")
  }

  /** `hit.get('document', {}).get('text', '')`. */
  function Text(h: Hit): string {
    match h.document
    case None => ""
    case Some(d) => d.text.GetOr("")
  }

  /** One part of the context: `[section]: text`. */
  function Render(h: Hit): string {
    "[" + Section(h) + "]: " + Text(h)
  }

  function RenderAll(hits: seq<Hit>): (parts: seq<string>)
    ensures |parts| == |hits|
    ensures forall k :: 0 <= k < |hits| ==> parts[k] == Render(hits[k])
  {
    seq(|hits|, k requires 0 <= k < |hits| => Render(hits[k]))
  }

  /** Each hit is rendered on its own, so rendering distributes over concatenation. */
  lemma RenderAllConcat(a: seq<Hit>, b: seq<Hit>)
    ensures RenderAll(a + b) == RenderAll(a) + RenderAll(b)
  {
    var l, r := RenderAll(a + b), RenderAll(a) + RenderAll(b);
    forall k | 0 <= k < |l| ensures l[k] == r[k] {
      if k < |a| {
        assert (a + b)[k] == a[k];
      } else {
        assert (a + b)[k] == b[k - |a|];
      }
    }
  }

  const ContextSeparator: string := "\n\n"

  /** The grounding context the formatter produces: the rendered hits in search order, separated
      by blank lines. */
  function Context(hits: seq<Hit>): string {
    Join(ContextSeparator, RenderAll(hits))
  }

  /** `extract_context_from_hits`: the loop appending one rendered part per hit, then the join. */
  method ExtractContextFromHits(hits: seq<Hit>) returns (context: string)
    ensures context == Context(hits)
    ensures hits == [] ==> context == ""
  {
    if hits == [] {
      return "";
    }
    var contextParts: seq<string> := [];
    for i := 0 to |hits|
      invariant contextParts == RenderAll(hits[..i])
    {
      var hit := hits[i];
      contextParts := contextParts + [Render(hit)];
      assert hits[..i + 1] == hits[..i] + [hit];
    }
    assert hits[..|hits|] == hits;
    context := Join(ContextSeparator, contextParts);
  }

  /** With no hits there is no grounding: the context is empty. */
  lemma ContextEmpty()
    ensures Context([]) == ""
  {
  }

  /** Appending a hit appends a blank line and its rendering. */
  lemma ContextAppend(hits: seq<Hit>, h: Hit)
    requires hits != []
    ensures Context(hits + [h]) == Context(hits) + ContextSeparator + Render(h)
  {
    RenderAllConcat(hits, [h]);
    assert RenderAll([h]) == [Render(h)];
    JoinAppend(ContextSeparator, RenderAll(hits), Render(h));
  }

  /** The context of a non-empty list starts with the first hit's section label. */
  lemma {:induction false} ContextStartsWithFirstSection(hits: seq<Hit>)
    requires hits != []
    ensures |"[" + Section(hits[0]) + "]: "| <= |Context(hits)|
    ensures Context(hits)[..|"[" + Section(hits[0]) + "]: "|] == "[" + Section(hits[0]) + "]: "
  {
    var head := "[" + Section(hits[0]) + "]: ";
    var parts := RenderAll(hits);
    assert parts[0] == head + Text(hits[0]);
    if |parts| > 1 {
      assert Context(hits) == parts[0] + ContextSeparator + Join(ContextSeparator, parts[1..]);
      assert Context(hits) == head + (Text(hits[0]) + ContextSeparator + Join(ContextSeparator, parts[1..]));
    } else {
      assert Context(hits) == head + Text(hits[0]);
    }
  }

  /** The context is exactly as long as its parts plus one blank line between each two. */
  lemma ContextLength(hits: seq<Hit>)
    requires hits != []
    ensures |Context(hits)| == SumLengths(RenderAll(hits)) + 2 * (|hits| - 1)
  {
    JoinLength(ContextSeparator, RenderAll(hits));
  }

  /** The defaults: a hit without a document renders as `[unknown]: `. */
  lemma RenderDefaults(d: Option<real>)
    ensures Render(Hit(d, None)) == "[unknown]: "
    ensures Render(Hit(d, Some(Document(None, None)))) == "[unknown]: "
  {
  }
}
