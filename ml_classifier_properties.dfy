/** What `DocumentClassifier.classify` promises, proved about ClassifySpec:
    the error cases, the chunk arithmetic in the result record, the averages
    and the choice of the predicted category. */
module MlClassifierProperties {
  import opened Outcomes
  import opened PyStrings
  import opened Chunking
  import opened Scores
  import opened MlClassifier

  /** A chunk that goes through without an exception: it decodes, the
      classifier answers, and every label it returns is one of the categories. */
  predicate ChunkAccepted(chunk: seq<int>, cats: seq<string>, backend: Backend)
  {
    match ChunkPairs(chunk, cats, backend)
    case Raised(_) => false
    case Returned(pairs) => forall j :: 0 <= j < |pairs| ==> pairs[j].0 in cats
  }

  /** The scores a category receives from the chunks, chunk after chunk. */
  function ChunkScores(chunks: seq<seq<int>>, cats: seq<string>, backend: Backend, c: string): seq<real>
  {
    if chunks == [] then []
    else
      (match ChunkPairs(chunks[0], cats, backend)
       case Returned(pairs) => ScoresFor(pairs, c)
       case Raised(_) => [])
      + ChunkScores(chunks[1..], cats, backend, c)
  }

  /** Scoring the chunks goes through exactly when every chunk is accepted. */
  lemma {:induction false} ScoreChunksSucceedsIff(lists: ScoreLists, chunks: seq<seq<int>>,
                                                  cats: seq<string>, backend: Backend)
    requires forall c :: c in lists <==> c in cats
    ensures ScoreChunks(lists, chunks, cats, backend).Returned? <==>
      forall k :: 0 <= k < |chunks| ==> ChunkAccepted(chunks[k], cats, backend)
  {
    if chunks != [] {
      match ChunkPairs(chunks[0], cats, backend)
      case Raised(_) =>
        assert !ChunkAccepted(chunks[0], cats, backend);
      case Returned(pairs) =>
        match Append(lists, pairs)
        case Raised(_) =>
          assert !ChunkAccepted(chunks[0], cats, backend);
        case Returned(next) =>
          ScoreChunksSucceedsIff(next, chunks[1..], cats, backend);
          assert forall k :: 1 <= k < |chunks| ==> chunks[k] == chunks[1..][k - 1];
    }
  }

  /** One step of a successful scoring: the first chunk's pairs are appended,
      and the rest of the chunks are scored from there. */
  lemma ScoreChunksStep(lists: ScoreLists, chunks: seq<seq<int>>, cats: seq<string>, backend: Backend)
    requires chunks != [] && ScoreChunks(lists, chunks, cats, backend).Returned?
    ensures ChunkPairs(chunks[0], cats, backend).Returned?
    ensures Append(lists, ChunkPairs(chunks[0], cats, backend).value).Returned?
    ensures ScoreChunks(lists, chunks, cats, backend)
         == ScoreChunks(Append(lists, ChunkPairs(chunks[0], cats, backend).value).value, chunks[1..], cats, backend)
  {
  }

  /** Concatenation of score lists associates. */
  lemma AppendAssociates(a: seq<real>, b: seq<real>, c: seq<real>)
    ensures (a + b) + c == a + (b + c)
  {
  }

  /** The chunk scores of a category: the first chunk's, then the rest's. */
  lemma ChunkScoresStep(chunks: seq<seq<int>>, cats: seq<string>, backend: Backend, c: string)
    requires chunks != [] && ChunkPairs(chunks[0], cats, backend).Returned?
    ensures ChunkScores(chunks, cats, backend, c)
         == ScoresFor(ChunkPairs(chunks[0], cats, backend).value, c) + ChunkScores(chunks[1..], cats, backend, c)
  {
  }

  /** After the chunks, each category's list is its old list followed by the
      scores the chunks gave it, in chunk order. */
  lemma {:induction false} ScoreChunksContents(lists: ScoreLists, chunks: seq<seq<int>>,
                                               cats: seq<string>, backend: Backend)
    requires ScoreChunks(lists, chunks, cats, backend).Returned?
    ensures forall c :: c in lists ==>
      ScoreChunks(lists, chunks, cats, backend).value[c] == lists[c] + ChunkScores(chunks, cats, backend, c)
  {
    if chunks != [] {
      ScoreChunksStep(lists, chunks, cats, backend);
      var pairs := ChunkPairs(chunks[0], cats, backend).value;
      var next := Append(lists, pairs).value;
      var rest := chunks[1..];
      AppendContents(lists, pairs);
      ScoreChunksContents(next, rest, cats, backend);
      var out := ScoreChunks(next, rest, cats, backend).value;
      forall c | c in lists
        ensures out[c] == lists[c] + ChunkScores(chunks, cats, backend, c)
      {
        ChunkScoresStep(chunks, cats, backend, c);
        AppendAssociates(lists[c], ScoresFor(pairs, c), ChunkScores(rest, cats, backend, c));
      }
    }
  }

  /** A successful result is the record concluded from the score lists of
      all the chunks. */
  lemma ClassifiedFromScoreLists(text: string, categories: Option<seq<string>>, backend: Backend,
                                 maxChunkTokens: nat, modelKey: string)
    requires ClassifySpec(text, categories, backend, maxChunkTokens, modelKey).Classified?
    ensures !IsBlank(text) && backend.encode(text).Returned? && maxChunkTokens > 0
    ensures var cats := EffectiveCategories(categories);
      var tokens := backend.encode(text).value;
      var chunks := Chunks(tokens, maxChunkTokens);
      && ScoreChunks(EmptyLists(cats), chunks, cats, backend).Returned?
      && ClassifySpec(text, categories, backend, maxChunkTokens, modelKey).allScores
           == Averages(ScoreChunks(EmptyLists(cats), chunks, cats, backend).value)
  {
  }

  /** Empty or whitespace-only text gives exactly the empty-text error record,
      whatever the backend: nothing is tokenized or classified. */
  lemma BlankTextIsRejected(text: string, categories: Option<seq<string>>, backend: Backend,
                            other: Backend, maxChunkTokens: nat, modelKey: string)
    requires AllSpace(text)
    ensures ClassifySpec(text, categories, backend, maxChunkTokens, modelKey) == Failed(EmptyTextError)
    ensures ClassifySpec(text, categories, backend, maxChunkTokens, modelKey)
         == ClassifySpec(text, categories, other, maxChunkTokens, modelKey)
    ensures ClassifySpec(text, categories, backend, maxChunkTokens, modelKey).Category() == "Other"
    ensures ClassifySpec(text, categories, backend, maxChunkTokens, modelKey).Confidence() == 0.0
  {
    StripEmptyIffAllSpace(text);
  }

  /** The call succeeds exactly when the text is not blank, it tokenizes, the
      chunk width is positive and every chunk is accepted. Otherwise the result
      is the error record, `"Other"` with confidence 0, and nothing else. */
  lemma ClassifySucceedsIff(text: string, categories: Option<seq<string>>, backend: Backend,
                            maxChunkTokens: nat, modelKey: string)
    ensures var r := ClassifySpec(text, categories, backend, maxChunkTokens, modelKey);
      var cats := EffectiveCategories(categories);
      r.Classified? <==>
        && !IsBlank(text)
        && backend.encode(text).Returned?
        && maxChunkTokens > 0
        && forall k :: 0 <= k < |Chunks(backend.encode(text).value, maxChunkTokens)| ==>
             ChunkAccepted(Chunks(backend.encode(text).value, maxChunkTokens)[k], cats, backend)
    ensures var r := ClassifySpec(text, categories, backend, maxChunkTokens, modelKey);
      r.Failed? ==> r.Category() == ErrorCategory && r.Confidence() == 0.0
  {
    var cats := EffectiveCategories(categories);
    if !IsBlank(text) && backend.encode(text).Returned? && maxChunkTokens > 0 {
      ScoreChunksSucceedsIff(EmptyLists(cats), Chunks(backend.encode(text).value, maxChunkTokens), cats, backend);
    }
  }

  /** A label outside the categories, in any chunk the call reaches, makes the
      whole call the error record: there is no per-chunk recovery. */
  lemma UnknownLabelFailsTheCall(text: string, categories: Option<seq<string>>, backend: Backend,
                                 maxChunkTokens: nat, modelKey: string, k: nat, j: nat)
    requires backend.encode(text).Returned? && maxChunkTokens > 0
    requires var chunks := Chunks(backend.encode(text).value, maxChunkTokens);
      && k < |chunks|
      && ChunkPairs(chunks[k], EffectiveCategories(categories), backend).Returned?
      && j < |ChunkPairs(chunks[k], EffectiveCategories(categories), backend).value|
      && ChunkPairs(chunks[k], EffectiveCategories(categories), backend).value[j].0
           !in EffectiveCategories(categories)
    ensures ClassifySpec(text, categories, backend, maxChunkTokens, modelKey).Failed?
  {
    ClassifySucceedsIff(text, categories, backend, maxChunkTokens, modelKey);
  }

  /** The result record counts the tokens and the chunks: `token_count` is the
      token sequence's length, `chunks_processed` is `ceil(n / M)`, and
      `was_chunked` holds exactly when more than one chunk was used, that is
      when there are more than `M` tokens. */
  lemma ClassifiedCounts(text: string, categories: Option<seq<string>>, backend: Backend,
                         maxChunkTokens: nat, modelKey: string)
    requires ClassifySpec(text, categories, backend, maxChunkTokens, modelKey).Classified?
    ensures backend.encode(text).Returned? && maxChunkTokens > 0
    ensures var r := ClassifySpec(text, categories, backend, maxChunkTokens, modelKey);
      var n := |backend.encode(text).value|;
      && r.modelKey == modelKey
      && r.tokenCount == n
      && r.chunksProcessed == CeilDiv(n, maxChunkTokens)
      && (r.wasChunked <==> r.chunksProcessed > 1)
      && (r.wasChunked <==> n > maxChunkTokens)
  {
    var tokens := backend.encode(text).value;
    ChunkCount(tokens, maxChunkTokens);
    ChunkedIffLonger(tokens, maxChunkTokens);
  }

  /** The predicted category is one of the categories, its average is the
      reported confidence and no category's average is higher, and it is the
      earliest category, in category order, with that average. */
  lemma ClassifiedSelection(text: string, categories: Option<seq<string>>, backend: Backend,
                            maxChunkTokens: nat, modelKey: string)
    requires ClassifySpec(text, categories, backend, maxChunkTokens, modelKey).Classified?
    ensures var r := ClassifySpec(text, categories, backend, maxChunkTokens, modelKey);
      var cats := EffectiveCategories(categories);
      && (forall c :: c in r.allScores <==> c in cats)
      && r.predictedCategory in cats
      && r.confidenceScore == r.allScores[r.predictedCategory]
      && (forall k :: 0 <= k < |cats| ==> r.allScores[cats[k]] <= r.confidenceScore)
      && (forall k :: 0 <= k < |cats| && r.allScores[cats[k]] == r.confidenceScore ==>
            r.predictedCategory in cats[..k + 1])
  {
    var cats := EffectiveCategories(categories);
    var r := ClassifySpec(text, categories, backend, maxChunkTokens, modelKey);
    var lists := ScoreChunks(EmptyLists(cats), Chunks(backend.encode(text).value, maxChunkTokens), cats, backend).value;
    var i := FirstMax(cats, Averages(lists));
    forall k | 0 <= k < |cats| && r.allScores[cats[k]] == r.confidenceScore
      ensures r.predictedCategory in cats[..k + 1]
    {
      assert i <= k;
      assert cats[..k + 1][i] == cats[i];
    }
  }

  /** Starting from empty lists, each category's average is the mean of its
      chunk scores. */
  lemma AveragesOfChunkScores(cats: seq<string>, chunks: seq<seq<int>>, backend: Backend)
    requires ScoreChunks(EmptyLists(cats), chunks, cats, backend).Returned?
    ensures var averages := Averages(ScoreChunks(EmptyLists(cats), chunks, cats, backend).value);
      forall c :: c in cats ==> c in averages && averages[c] == Mean(ChunkScores(chunks, cats, backend, c))
  {
    var empty := EmptyLists(cats);
    ScoreChunksContents(empty, chunks, cats, backend);
    var lists := ScoreChunks(empty, chunks, cats, backend).value;
    forall c | c in cats
      ensures lists[c] == ChunkScores(chunks, cats, backend, c)
    {
      assert lists[c] == [] + ChunkScores(chunks, cats, backend, c);
    }
  }

  /** Each category's reported score is the mean of the scores the chunks gave
      it, 0 when none did. */
  lemma ClassifiedAverages(text: string, categories: Option<seq<string>>, backend: Backend,
                           maxChunkTokens: nat, modelKey: string)
    requires ClassifySpec(text, categories, backend, maxChunkTokens, modelKey).Classified?
    ensures backend.encode(text).Returned? && maxChunkTokens > 0
    ensures var r := ClassifySpec(text, categories, backend, maxChunkTokens, modelKey);
      var cats := EffectiveCategories(categories);
      var chunks := Chunks(backend.encode(text).value, maxChunkTokens);
      forall c :: c in cats ==> r.allScores[c] == Mean(ChunkScores(chunks, cats, backend, c))
  {
    ClassifiedFromScoreLists(text, categories, backend, maxChunkTokens, modelKey);
    var cats := EffectiveCategories(categories);
    AveragesOfChunkScores(cats, Chunks(backend.encode(text).value, maxChunkTokens), backend);
  }

  /** A chunk whose classifier answer names every category exactly once and
      nothing else, with a score for each label. */
  predicate EachCategoryOnce(chunk: seq<int>, cats: seq<string>, backend: Backend)
  {
    match backend.decode(chunk)
    case Raised(_) => false
    case Returned(chunkText) =>
      match backend.zeroShot(chunkText, cats)
      case Raised(_) => false
      case Returned(result) =>
        && |result.labels| <= |result.scores|
        && (forall j :: 0 <= j < |result.labels| ==> result.labels[j] in cats)
        && (forall c :: c in cats ==> multiset(result.labels)[c] == 1)
  }

  /** When every chunk names each category once, scoring goes through and
      every list grows by exactly one score per chunk. */
  lemma {:induction false} OneScorePerChunk(lists: ScoreLists, chunks: seq<seq<int>>,
                                            cats: seq<string>, backend: Backend)
    requires forall c :: c in lists <==> c in cats
    requires forall k :: 0 <= k < |chunks| ==> EachCategoryOnce(chunks[k], cats, backend)
    ensures ScoreChunks(lists, chunks, cats, backend).Returned?
    ensures forall c :: c in lists ==>
      |ScoreChunks(lists, chunks, cats, backend).value[c]| == |lists[c]| + |chunks|
  {
    if chunks != [] {
      assert EachCategoryOnce(chunks[0], cats, backend);
      var chunkText := backend.decode(chunks[0]).value;
      var result := backend.zeroShot(chunkText, cats).value;
      var pairs := Zip(result.labels, result.scores);
      assert ChunkPairs(chunks[0], cats, backend) == Returned(pairs);
      assert Append(lists, pairs).Returned?;
      var next := Append(lists, pairs).value;
      AppendContents(lists, pairs);
      forall c | c in lists
        ensures |next[c]| == |lists[c]| + 1
      {
        ScoresForCount(result.labels, result.scores, c);
      }
      assert forall k :: 0 <= k < |chunks| - 1 ==> chunks[1..][k] == chunks[k + 1];
      OneScorePerChunk(next, chunks[1..], cats, backend);
    }
  }

  /** When every chunk names each category once (the zero-shot pipeline's
      usual answer), the call succeeds and every category's score is the sum of
      its chunk scores divided by the number of chunks. */
  lemma AveragesOverAllChunks(text: string, categories: Option<seq<string>>, backend: Backend,
                              maxChunkTokens: nat, modelKey: string)
    requires !IsBlank(text) && backend.encode(text).Returned? && maxChunkTokens > 0
    requires var chunks := Chunks(backend.encode(text).value, maxChunkTokens);
      forall k :: 0 <= k < |chunks| ==> EachCategoryOnce(chunks[k], EffectiveCategories(categories), backend)
    ensures ClassifySpec(text, categories, backend, maxChunkTokens, modelKey).Classified?
    ensures var r := ClassifySpec(text, categories, backend, maxChunkTokens, modelKey);
      var cats := EffectiveCategories(categories);
      var chunks := Chunks(backend.encode(text).value, maxChunkTokens);
      forall c :: c in cats ==>
        && |ChunkScores(chunks, cats, backend, c)| == r.chunksProcessed
        && r.allScores[c] == if r.chunksProcessed == 0 then 0.0
             else Sum(ChunkScores(chunks, cats, backend, c)) / (r.chunksProcessed as real)
  {
    var cats := EffectiveCategories(categories);
    var chunks := Chunks(backend.encode(text).value, maxChunkTokens);
    OneScorePerChunk(EmptyLists(cats), chunks, cats, backend);
    ScoreChunksContents(EmptyLists(cats), chunks, cats, backend);
    ClassifiedAverages(text, categories, backend, maxChunkTokens, modelKey);
  }

  /** Text that tokenizes to nothing uses no chunk: every average is 0 and the
      first category is predicted with confidence 0. */
  lemma NoTokensPicksFirstCategory(text: string, categories: Option<seq<string>>, backend: Backend,
                                   maxChunkTokens: nat, modelKey: string)
    requires !IsBlank(text) && backend.encode(text) == Returned([]) && maxChunkTokens > 0
    ensures var cats := EffectiveCategories(categories);
      ClassifySpec(text, categories, backend, maxChunkTokens, modelKey)
        == Classified(cats[0], 0.0, map c | c in cats :: 0.0, modelKey, 0, 0, false)
  {
    var cats := EffectiveCategories(categories);
    var none: seq<int> := [];
    assert Chunks(none, maxChunkTokens) == [];
    var averages := Averages(EmptyLists(cats));
    assert averages == map c | c in cats :: 0.0;
    FirstMaxOfTies(cats, averages);
  }

  /** The zero-shot pipeline answers with probabilities. */
  ghost predicate ScoresAreProbabilities(backend: Backend)
  {
    forall t, cs :: backend.zeroShot(t, cs).Returned? ==>
      forall j :: 0 <= j < |backend.zeroShot(t, cs).value.scores| ==>
        0.0 <= backend.zeroShot(t, cs).value.scores[j] <= 1.0
  }

  /** Filtering probabilities by category keeps probabilities. */
  lemma {:induction false} ScoresForInUnitInterval(pairs: seq<(string, real)>, c: string)
    requires forall j :: 0 <= j < |pairs| ==> 0.0 <= pairs[j].1 <= 1.0
    ensures forall k :: 0 <= k < |ScoresFor(pairs, c)| ==> 0.0 <= ScoresFor(pairs, c)[k] <= 1.0
  {
    if pairs != [] {
      ScoresForInUnitInterval(pairs[1..], c);
    }
  }

  /** Appending probabilities chunk by chunk keeps every list within `[0, 1]`. */
  lemma {:induction false} ScoreChunksInUnitInterval(lists: ScoreLists, chunks: seq<seq<int>>,
                                                     cats: seq<string>, backend: Backend)
    requires ScoresAreProbabilities(backend)
    requires forall c, k :: c in lists && 0 <= k < |lists[c]| ==> 0.0 <= lists[c][k] <= 1.0
    requires ScoreChunks(lists, chunks, cats, backend).Returned?
    ensures var out := ScoreChunks(lists, chunks, cats, backend).value;
      forall c, k :: c in out && 0 <= k < |out[c]| ==> 0.0 <= out[c][k] <= 1.0
  {
    if chunks != [] {
      var chunkText := backend.decode(chunks[0]).value;
      var result := backend.zeroShot(chunkText, cats).value;
      var pairs := Zip(result.labels, result.scores);
      var next := Append(lists, pairs).value;
      AppendContents(lists, pairs);
      forall c | c in lists
        ensures forall k :: 0 <= k < |next[c]| ==> 0.0 <= next[c][k] <= 1.0
      {
        ScoresForInUnitInterval(pairs, c);
      }
      ScoreChunksInUnitInterval(next, chunks[1..], cats, backend);
    }
  }

  /** With probabilities from the pipeline, every reported score, the
      confidence among them, lies in `[0, 1]`. */
  lemma ConfidenceIsProbability(text: string, categories: Option<seq<string>>, backend: Backend,
                                maxChunkTokens: nat, modelKey: string)
    requires ScoresAreProbabilities(backend)
    ensures var r := ClassifySpec(text, categories, backend, maxChunkTokens, modelKey);
      0.0 <= r.Confidence() <= 1.0
    ensures var r := ClassifySpec(text, categories, backend, maxChunkTokens, modelKey);
      r.Classified? ==> forall c :: c in r.allScores ==> 0.0 <= r.allScores[c] <= 1.0
  {
    var r := ClassifySpec(text, categories, backend, maxChunkTokens, modelKey);
    if r.Classified? {
      var cats := EffectiveCategories(categories);
      var chunks := Chunks(backend.encode(text).value, maxChunkTokens);
      ScoreChunksInUnitInterval(EmptyLists(cats), chunks, cats, backend);
      var lists := ScoreChunks(EmptyLists(cats), chunks, cats, backend).value;
      AveragesInUnitInterval(lists);
    }
  }
}
