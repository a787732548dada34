/** `DocumentClassifier.classify` (backend/ml_classifier.py): the text is
    tokenized once, cut into consecutive windows of `max_chunk_tokens` tokens,
    every window is decoded and given to a zero-shot classifier, the returned
    (label, score) pairs are appended to one list per category, each list is
    averaged, and the category with the highest average wins. Any exception in
    that pipeline turns the whole call into the `"Other"` / 0.0 error record.
    The module also holds the per-model-key registry of classifier instances.

    The tokenizer and the zero-shot pipeline are opaque: they are the three
    functions of a `Backend`, each of which may return or raise. */
module MlClassifier {
  import opened Outcomes
  import opened PyStrings
  import opened Chunking
  import opened Scores

  /** `DocumentClassifier.CATEGORIES`, in declared order. */
  const DefaultCategories: seq<string> :=
    ["Technical Documentation", "Business Proposal", "Legal Document", "Academic Paper", "General Article"]

  /** The category every error record reports. */
  const ErrorCategory: string := "Other"

  const EmptyTextError: string := "Empty text provided"

  /** The message of the `ValueError` that `range(0, n, 0)` raises. */
  const ZeroStepError: string := "range() arg 3 must not be zero"

  /** `self.max_chunk_tokens`, set by `__init__`. */
  const MaxChunkTokens: nat := 800

  datatype ModelInfo = ModelInfo(name: string, modelId: string, description: string)

  /** `DocumentClassifier.AVAILABLE_MODELS`. */
  const AvailableModels: map<string, ModelInfo> := map[
    "bart-large-mnli" := ModelInfo("BART Large MNLI", "facebook/bart-large-mnli",
      "Facebook's BART model fine-tuned for MNLI"),
    "mdeberta-v3-base" := ModelInfo("mDeBERTa v3 Base", "MoritzLaurer/mDeBERTa-v3-base-mnli-xnli",
      "Multilingual DeBERTa model for cross-lingual classification")
  ]

  const DefaultModelKey: string := "bart-large-mnli"

  /** The `ValueError` message of `__init__` for a key it does not know. */
  function UnsupportedModelMessage(modelKey: string): string
  {
    "Model '" + modelKey + "' not supported. Available models: ['bart-large-mnli', 'mdeberta-v3-base']"
  }

  /** What the zero-shot pipeline returns: `result["labels"]` and `result["scores"]`. */
  datatype ZeroShot = ZeroShot(labels: seq<string>, scores: seq<real>)

  /** The loaded model: `tokenizer.encode(text, add_special_tokens=False)`,
      `tokenizer.decode(tokens, skip_special_tokens=True)` and
      `classifier(text, categories, multi_label=False)`. */
  datatype Backend = Backend(
    encode: string -> Call<seq<int>>,
    decode: seq<int> -> Call<string>,
    zeroShot: (string, seq<string>) -> Call<ZeroShot>)

  /** The dictionary `classify` returns: the error record, or the result
      record (without its timing and model-name metadata). */
  datatype Classification =
    | Failed(error: string)
    | Classified(
        predictedCategory: string,
        confidenceScore: real,
        allScores: map<string, real>,
        modelKey: string,
        tokenCount: nat,
        chunksProcessed: nat,
        wasChunked: bool)
  {
    /** `result["predicted_category"]`. */
    function Category(): string
    {
      if Failed? then ErrorCategory else predictedCategory
    }

    /** `result["confidence_score"]`. */
    function Confidence(): real
    {
      if Failed? then 0.0 else confidenceScore
    }
  }

  /** `not text or not text.strip()`. */
  predicate IsBlank(text: string)
  {
    Strip(text) == []
  }

  /** `categories or self.CATEGORIES`: the caller's list unless it is `None`
      or empty. */
  function EffectiveCategories(categories: Option<seq<string>>): (r: seq<string>)
    ensures r != []
    ensures categories == None ==> r == DefaultCategories
    ensures categories == Some([]) ==> r == DefaultCategories
    ensures categories.Some? && categories.value != [] ==> r == categories.value
  {
    match categories
    case Some(cs) => if cs != [] then cs else DefaultCategories
    case None => DefaultCategories
  }

  /** The (label, score) pairs of one chunk: decode it, classify the text, and
      zip the labels with the scores. */
  function ChunkPairs(chunk: seq<int>, categories: seq<string>, backend: Backend): Call<seq<(string, real)>>
  {
    match backend.decode(chunk)
    case Raised(m) => Raised(m)
    case Returned(chunkText) =>
      match backend.zeroShot(chunkText, categories)
      case Raised(m) => Raised(m)
      case Returned(result) => Returned(Zip(result.labels, result.scores))
  }

  /** The score lists after the given chunks, in order, each appending its
      pairs; the first exception ends it. */
  function ScoreChunks(lists: ScoreLists, chunks: seq<seq<int>>, categories: seq<string>, backend: Backend)
    : (r: Call<ScoreLists>)
    ensures r.Returned? ==> r.value.Keys == lists.Keys
    decreases |chunks|
  {
    if chunks == [] then Returned(lists)
    else
      match ChunkPairs(chunks[0], categories, backend)
      case Raised(m) => Raised(m)
      case Returned(pairs) =>
        match Append(lists, pairs)
        case Raised(m) => Raised(m)
        case Returned(next) => ScoreChunks(next, chunks[1..], categories, backend)
  }

  /** The result record built from the final score lists: every list
      averaged, the first category with the highest average predicted. */
  function Conclude(lists: ScoreLists, cats: seq<string>, modelKey: string,
                    tokenCount: nat, chunkCount: nat): Classification
    requires cats != [] && lists.Keys == EmptyLists(cats).Keys
  {
    var averages := Averages(lists);
    var predicted := cats[FirstMax(cats, averages)];
    Classified(predicted, averages[predicted], averages, modelKey,
               tokenCount, chunkCount, chunkCount > 1)
  }

  /** What `classify` returns once the model is loaded, as a function of its
      inputs. */
  function ClassifySpec(text: string, categories: Option<seq<string>>, backend: Backend,
                        maxChunkTokens: nat, modelKey: string): Classification
  {
    if IsBlank(text) then Failed(EmptyTextError)
    else
      var cats := EffectiveCategories(categories);
      match backend.encode(text)
      case Raised(m) => Failed(m)
      case Returned(tokens) =>
        if maxChunkTokens == 0 then Failed(ZeroStepError)
        else
          var chunks := Chunks(tokens, maxChunkTokens);
          match ScoreChunks(EmptyLists(cats), chunks, cats, backend)
          case Raised(m) => Failed(m)
          case Returned(lists) => Conclude(lists, cats, modelKey, |tokens|, |chunks|)
  }

  /** The inner loop of `classify`: `all_scores[label].append(score)` for every
      zipped pair, in order. */
  method AppendScores(lists: ScoreLists, pairs: seq<(string, real)>) returns (r: Call<ScoreLists>)
    ensures r == Append(lists, pairs)
  {
    var allScores := lists;
    var k := 0;
    while k < |pairs|
      invariant k <= |pairs|
      invariant Append(allScores, pairs[k..]) == Append(lists, pairs)
    {
      var key := pairs[k].0;
      if key !in allScores {
        return Raised(KeyErrorMessage(key));
      }
      assert pairs[k..][1..] == pairs[k + 1..];
      allScores := allScores[key := allScores[key] + [pairs[k].1]];
      k := k + 1;
    }
    return Returned(allScores);
  }

  /** The chunk loop of `classify`: for `i` in `range(0, n, maxChunkTokens)`,
      decode `tokens[i:i+maxChunkTokens]`, classify the text and append its
      scores to the per-category lists; the first exception ends the loop. */
  method ScoreAllChunks(tokens: seq<int>, cats: seq<string>, backend: Backend, maxChunkTokens: nat)
    returns (outcome: Call<ScoreLists>, chunkCount: nat)
    requires maxChunkTokens > 0
    ensures outcome == ScoreChunks(EmptyLists(cats), Chunks(tokens, maxChunkTokens), cats, backend)
    ensures outcome.Returned? ==> chunkCount == |Chunks(tokens, maxChunkTokens)|
  {
    var fullTokenCount := |tokens|;
    var allScores := EmptyLists(cats);
    ghost var chunks := Chunks(tokens, maxChunkTokens);
    ghost var expected := ScoreChunks(allScores, chunks, cats, backend);
    chunkCount := 0;
    var i := 0;
    while i < fullTokenCount
      invariant chunkCount <= |chunks|
      invariant chunks[chunkCount..] == ChunksFrom(tokens, i, maxChunkTokens)
      invariant ScoreChunks(allScores, chunks[chunkCount..], cats, backend) == expected
      decreases fullTokenCount - i
    {
      ghost var rest := chunks[chunkCount..];
      chunkCount := chunkCount + 1;
      var stop := if i + maxChunkTokens <= fullTokenCount then i + maxChunkTokens else fullTokenCount;
      var chunkTokens := tokens[i..stop];
      assert rest[0] == chunkTokens && rest[1..] == chunks[chunkCount..];
      var chunkText := backend.decode(chunkTokens);
      if chunkText.Raised? {
        return Raised(chunkText.message), chunkCount;
      }
      var result := backend.zeroShot(chunkText.value, cats);
      if result.Raised? {
        return Raised(result.message), chunkCount;
      }
      var appended := AppendScores(allScores, Zip(result.value.labels, result.value.scores));
      if appended.Raised? {
        return Raised(appended.message), chunkCount;
      }
      allScores := appended.value;
      i := i + maxChunkTokens;
    }
    outcome := Returned(allScores);
  }

  /** The body of `classify` after the model is loaded. */
  method ClassifyText(text: string, categories: Option<seq<string>>, backend: Backend,
                      maxChunkTokens: nat, modelKey: string) returns (r: Classification)
    ensures r == ClassifySpec(text, categories, backend, maxChunkTokens, modelKey)
  {
    if IsBlank(text) {
      return Failed(EmptyTextError);
    }
    var cats := EffectiveCategories(categories);
    var encoded := backend.encode(text);
    if encoded.Raised? {
      return Failed(encoded.message);
    }
    var tokens := encoded.value;
    if maxChunkTokens == 0 {
      return Failed(ZeroStepError);
    }
    var outcome, chunkCount := ScoreAllChunks(tokens, cats, backend, maxChunkTokens);
    if outcome.Raised? {
      return Failed(outcome.message);
    }
    r := Conclude(outcome.value, cats, modelKey, |tokens|, chunkCount);
  }

  /** A `DocumentClassifier`: its model key and metadata, fixed by `__init__`,
      and the model handle that `load_model` fills in on first use. */
  class DocumentClassifier {
    const modelKey: string
    const modelName: string
    const modelDisplayName: string
    const maxChunkTokens: nat
    /** `self.classifier` and `self.tokenizer` together. */
    var backend: Option<Backend>
    var isLoaded: bool

    ghost predicate Valid()
      reads this
    {
      && modelKey in AvailableModels
      && modelName == AvailableModels[modelKey].modelId
      && modelDisplayName == AvailableModels[modelKey].name
      && maxChunkTokens == MaxChunkTokens
      && (isLoaded ==> backend.Some?)
    }

    /** `__init__` for a key it accepts. */
    constructor (modelKey: string)
      requires modelKey in AvailableModels
      ensures Valid() && this.modelKey == modelKey
      ensures !isLoaded && backend == None
    {
      this.modelKey := modelKey;
      this.modelName := AvailableModels[modelKey].modelId;
      this.modelDisplayName := AvailableModels[modelKey].name;
      this.maxChunkTokens := MaxChunkTokens;
      this.backend := None;
      this.isLoaded := false;
    }

    /** `DocumentClassifier(model_key)`: raises `ValueError` for a key that is
      not one of the available models, and otherwise gives a fresh, unloaded
      classifier for that key. */
    static method Create(modelKey: string) returns (r: Call<DocumentClassifier>)
      ensures r.Raised? <==> modelKey !in AvailableModels
      ensures r.Raised? ==> r.message == UnsupportedModelMessage(modelKey)
      ensures r.Returned? ==> fresh(r.value) && r.value.Valid() && r.value.modelKey == modelKey
      ensures r.Returned? ==> !r.value.isLoaded && r.value.backend == None
    {
      if modelKey !in AvailableModels {
        return Raised(UnsupportedModelMessage(modelKey));
      }
      var c := new DocumentClassifier(modelKey);
      return Returned(c);
    }

    /** `load_model`: `load` is what building the pipeline and the tokenizer
      gives; on success the handle is kept and the classifier is loaded, and a
      failure is re-raised with nothing loaded. */
    method LoadModel(load: Call<Backend>) returns (r: Call<()>)
      requires Valid()
      modifies this`backend, this`isLoaded
      ensures Valid()
      ensures r.Raised? <==> load.Raised?
      ensures load.Raised? ==>
        r.message == load.message && isLoaded == old(isLoaded) && backend == old(backend)
      ensures load.Returned? ==> isLoaded && backend == Some(load.value)
    {
      if load.Raised? {
        return Raised(load.message);
      }
      backend := Some(load.value);
      isLoaded := true;
      return Returned(());
    }

    /** `classify(text, categories)`: loads the model first if needed (a failed
      load escapes to the caller, before the text is even looked at), then
      gives what ClassifySpec says for the loaded backend. */
    method Classify(text: string, categories: Option<seq<string>>, load: Call<Backend>)
      returns (r: Call<Classification>)
      requires Valid()
      modifies this`backend, this`isLoaded
      ensures Valid()
      ensures r.Raised? <==> !old(isLoaded) && load.Raised?
      ensures r.Raised? ==>
        r.message == load.message && isLoaded == old(isLoaded) && backend == old(backend)
      ensures old(isLoaded) ==> backend == old(backend)
      ensures !old(isLoaded) && load.Returned? ==> backend == Some(load.value)
      ensures r.Returned? ==>
        isLoaded && r.value == ClassifySpec(text, categories, backend.value, maxChunkTokens, modelKey)
    {
      if !isLoaded {
        var loaded := LoadModel(load);
        if loaded.Raised? {
          return Raised(loaded.message);
        }
      }
      var result := ClassifyText(text, categories, backend.value, maxChunkTokens, modelKey);
      return Returned(result);
    }
  }

  /** `_classifier_instances`: at most one classifier per model key, created
      on first request. */
  class ClassifierRegistry {
    var instances: map<string, DocumentClassifier>

    ghost predicate Valid()
      reads this, instances.Values
    {
      forall k :: k in instances ==> instances[k].modelKey == k && instances[k].Valid()
    }

    constructor ()
      ensures Valid() && instances == map[]
    {
      instances := map[];
    }

    /** `get_classifier(model_key)`: the registered instance when there is
      one; otherwise a new one, registered under the key, or the `ValueError`
      of the constructor, which leaves the registry as it was. */
    method GetClassifier(modelKey: string) returns (r: Call<DocumentClassifier>)
      requires Valid()
      modifies this
      ensures Valid()
      ensures modelKey in old(instances) ==>
        r == Returned(old(instances)[modelKey]) && instances == old(instances)
      ensures modelKey !in old(instances) && modelKey in AvailableModels ==>
        && r.Returned? && fresh(r.value) && !r.value.isLoaded
        && instances == old(instances)[modelKey := r.value]
      ensures modelKey !in AvailableModels ==>
        r == Raised(UnsupportedModelMessage(modelKey)) && instances == old(instances)
      ensures r.Returned? ==> r.value.modelKey == modelKey && r.value.Valid()
    {
      if modelKey !in instances {
        var created := DocumentClassifier.Create(modelKey);
        if created.Raised? {
          return created;
        }
        instances := instances[modelKey := created.value];
      }
      return Returned(instances[modelKey]);
    }

    /** `cleanup_ml_resources`: forget every instance. */
    method Cleanup()
      modifies this
      ensures Valid() && instances == map[]
    {
      if instances != map[] {
        instances := map[];
      }
    }

    /** `classify_document_text(text, model_key)`: the registered classifier
      for the key, applied to the text with the default categories. */
    method ClassifyDocumentText(text: string, modelKey: string, load: Call<Backend>)
      returns (r: Call<Classification>)
      requires Valid()
      modifies this, if modelKey in instances then {instances[modelKey]} else {}
      ensures Valid()
      ensures modelKey !in AvailableModels ==>
        r == Raised(UnsupportedModelMessage(modelKey)) && instances == old(instances)
      ensures modelKey in AvailableModels ==> modelKey in instances
      ensures modelKey in AvailableModels && modelKey in old(instances) ==>
        instances == old(instances)
      ensures modelKey in AvailableModels && modelKey !in old(instances) ==>
        && fresh(instances[modelKey])
        && instances == old(instances)[modelKey := instances[modelKey]]
      ensures r.Raised? && modelKey in AvailableModels ==>
        && load.Raised? && r == Raised(load.message)
        && (modelKey !in old(instances) || !old(instances[modelKey].isLoaded))
      ensures (&& modelKey in AvailableModels && load.Raised?
               && (modelKey !in old(instances) || !old(instances[modelKey].isLoaded))) ==>
        r == Raised(load.message)
      ensures r.Returned? ==>
        && modelKey in instances && instances[modelKey].isLoaded
        && r.value == ClassifySpec(text, None, instances[modelKey].backend.value, MaxChunkTokens, modelKey)
      ensures modelKey in old(instances) && old(instances[modelKey].isLoaded) ==>
        instances[modelKey].backend == old(instances[modelKey].backend)
      ensures (&& modelKey in AvailableModels && load.Returned?
               && (modelKey !in old(instances) || !old(instances[modelKey].isLoaded))) ==>
        instances[modelKey].backend == Some(load.value)
      ensures r.Raised? && modelKey in old(instances) ==>
        && instances[modelKey].isLoaded == old(instances[modelKey].isLoaded)
        && instances[modelKey].backend == old(instances[modelKey].backend)
    {
      var classifier := GetClassifier(modelKey);
      if classifier.Raised? {
        return Raised(classifier.message);
      }
      var c := classifier.value;
      r := c.Classify(text, None, load);
    }
  }

  /** A fresh registry loads the model on the first `classify_document_text`
      and never again: a second call, whatever its load would give, uses the
      same backend and returns the same record. */
  method LoadsOnceThenReuses(text: string, modelKey: string, backend: Backend, otherLoad: Call<Backend>)
    returns (first: Call<Classification>, second: Call<Classification>)
    requires modelKey in AvailableModels
    ensures first == Returned(ClassifySpec(text, None, backend, MaxChunkTokens, modelKey))
    ensures second == first
  {
    var registry := new ClassifierRegistry();
    first := registry.ClassifyDocumentText(text, modelKey, Returned(backend));
    second := registry.ClassifyDocumentText(text, modelKey, otherLoad);
  }

  /** `get_classifier()` and `classify_document_text(text)` without a key use
      a model that exists, so their defaults never raise the `ValueError`. */
  lemma DefaultModelIsAvailable()
    ensures DefaultModelKey in AvailableModels
    ensures AvailableModels[DefaultModelKey].modelId == "facebook/bart-large-mnli"
  {
  }

  /** Asking the registry twice for one key gives the same instance both
      times, and the registry then holds exactly one entry for it. */
  method RegistryReusesInstance(registry: ClassifierRegistry, modelKey: string)
    returns (first: Call<DocumentClassifier>, second: Call<DocumentClassifier>)
    requires registry.Valid()
    modifies registry
    ensures first == second
    ensures first.Returned? <==> modelKey in AvailableModels
    ensures first.Returned? ==> modelKey in registry.instances && registry.instances[modelKey] == first.value
  {
    first := registry.GetClassifier(modelKey);
    second := registry.GetClassifier(modelKey);
  }
}
