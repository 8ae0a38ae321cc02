/**
  The model loader: how the embedding model and the chat model are chosen from the configuration.
  The configuration is a dictionary of Python values; choosing a model is a decision over it that
  yields the constructor to call (HuggingFace, Google or Groq) with its arguments, or the error
  that the loader raises.
 */
module ModelLoader {
  import opened Wrappers
  import opened Strings

  /** A value of the configuration dictionary, as YAML or a caller hands it over. */
  datatype Value =
    | Str(s: string)
    | Int(i: int)
    | Float(r: real)
    | Bool(b: bool)
    | Null
    | Dict(entries: map<string, Value>)
    | List(items: seq<Value>)

  /** Python truthiness: empty strings and collections, zero, False and None are false. */
  predicate Truthy(v: Value)
  {
    match v
    case Str(s) => s != ""
    case Int(i) => i != 0
    case Float(r) => r != 0.0
    case Bool(b) => b
    case Null => false
    case Dict(m) => |m| > 0
    case List(xs) => |xs| > 0
  }

  /** d.get(key, default) */
  function Get(d: map<string, Value>, key: string, default: Value): (v: Value)
    ensures key in d ==> v == d[key]
    ensures key !in d ==> v == default
  {
    if key in d then d[key] else default
  }

  /** config or load_config(): an empty or missing configuration is replaced by the one loaded from file. */
  function EffectiveConfig(given: Option<map<string, Value>>, loaded: map<string, Value>): (c: map<string, Value>)
    ensures given.Some? && |given.value| > 0 ==> c == given.value
    ensures given.None? || |given.value| == 0 ==> c == loaded
  {
    if given.Some? && |given.value| > 0 then given.value else loaded
  }

  /** The errors the loader raises. */
  datatype LoaderError =
    | EmbeddingModelNameMissing          // ValueError, line 41
    | UnknownEmbeddingsProvider(provider: string)  // ValueError, line 53
    | GoogleEmbeddingsUnavailable        // ImportError, line 48
    | LlmModelNameMissing                // ValueError, line 61
    | NoSuchAttribute(attribute: string) // AttributeError: .get or .lower on a value that lacks it

  predicate IsValueError(e: LoaderError)
  {
    e.EmbeddingModelNameMissing? || e.UnknownEmbeddingsProvider? || e.LlmModelNameMissing?
  }

  /** The embedding model to construct. */
  datatype Embeddings = HuggingFace(modelName: Value) | Google(model: Value)

  /** The chat model to construct: ChatGroq(model=..., temperature=..., max_tokens=...). */
  datatype Llm = Groq(model: Value, temperature: Value, maxTokens: Value)

  /** The providers that select HuggingFace embeddings. */
  const HuggingFaceProviders: set<string> := {"huggingface", "hf", "local"}

  /** config.get(name, {}) as a dictionary, or None when the value found has no .get. */
  function Section(config: map<string, Value>, name: string): (sec: Option<map<string, Value>>)
    ensures name !in config ==> sec == Some(map[])
    ensures name in config ==> (sec.Some? <==> config[name].Dict?)
    ensures sec.Some? && name in config ==> sec.value == config[name].entries
  {
    match Get(config, name, Dict(map[]))
    case Dict(m) => Some(m)
    case _ => None
  }

  /** (emb_cfg.get("provider") or "").lower(): None when the provider is truthy but not a string. */
  function ProviderName(emb: map<string, Value>): (p: Option<string>)
    ensures "provider" !in emb || !Truthy(emb["provider"]) ==> p == Some("")
    ensures "provider" in emb && emb["provider"].Str? ==> p == Some(Lower(emb["provider"].s))
    ensures p.None? <==> "provider" in emb && Truthy(emb["provider"]) && !emb["provider"].Str?
  {
    var v := Get(emb, "provider", Null);
    var chosen := if Truthy(v) then v else Str("");
    assert Lower("") == "";
    if chosen.Str? then Some(Lower(chosen.s)) else None
  }

  /**
    load_embeddings: the provider is read and lower-cased first, then a missing or falsy model name
    is refused whatever the provider; "huggingface", "hf" and "local" select HuggingFace, "google"
    selects Google when its library is importable, and any other provider is refused.
   */
  function LoadEmbeddings(config: map<string, Value>, googleAvailable: bool): (r: Result<Embeddings, LoaderError>)
    ensures Section(config, "embedding_model").None? ==> r == Err(NoSuchAttribute("get"))
    ensures Section(config, "embedding_model").Some? ==>
      var emb := Section(config, "embedding_model").value;
      var model := Get(emb, "model_name", Null);
      match ProviderName(emb)
      case None => r == Err(NoSuchAttribute("lower"))
      case Some(p) =>
        && (!Truthy(model) ==> r == Err(EmbeddingModelNameMissing))
        && (Truthy(model) && p in HuggingFaceProviders ==> r == Ok(HuggingFace(model)))
        && (Truthy(model) && p == "google" ==> r == if googleAvailable then Ok(Google(model)) else Err(GoogleEmbeddingsUnavailable))
        && (Truthy(model) && p !in HuggingFaceProviders && p != "google" ==> r == Err(UnknownEmbeddingsProvider(p)))
  {
    match Section(config, "embedding_model")
    case None => Err(NoSuchAttribute("get"))
    case Some(emb) =>
      match ProviderName(emb)
      case None => Err(NoSuchAttribute("lower"))
      case Some(provider) =>
        var modelName := Get(emb, "model_name", Null);
        if !Truthy(modelName) then Err(EmbeddingModelNameMissing)
        else if provider in HuggingFaceProviders then Ok(HuggingFace(modelName))
        else if provider == "google" then
          if googleAvailable then Ok(Google(modelName)) else Err(GoogleEmbeddingsUnavailable)
        else Err(UnknownEmbeddingsProvider(provider))
  }

  /**
    load_llm: a missing or falsy model name is refused; otherwise Groq, with temperature and
    max_output_tokens taken from the section when present and 0 and 2048 otherwise.
   */
  function LoadLlm(config: map<string, Value>): (r: Result<Llm, LoaderError>)
    ensures Section(config, "llm").None? ==> r == Err(NoSuchAttribute("get"))
    ensures Section(config, "llm").Some? ==>
      var llm := Section(config, "llm").value;
      && (!Truthy(Get(llm, "model_name", Null)) ==> r == Err(LlmModelNameMissing))
      && (Truthy(Get(llm, "model_name", Null)) ==> r.Ok? && r.value.model == llm["model_name"])
      && (r.Ok? ==> r.value.temperature == (if "temperature" in llm then llm["temperature"] else Int(0)))
      && (r.Ok? ==> r.value.maxTokens == (if "max_output_tokens" in llm then llm["max_output_tokens"] else Int(2048)))
  {
    match Section(config, "llm")
    case None => Err(NoSuchAttribute("get"))
    case Some(llm) =>
      var modelName := Get(llm, "model_name", Null);
      if !Truthy(modelName) then Err(LlmModelNameMissing)
      else
        var temperature := Get(llm, "temperature", Int(0));
        var maxTokens := Get(llm, "max_output_tokens", Int(2048));
        Ok(Groq(modelName, temperature, maxTokens))
  }

  // ---------- properties ----------

  /** The configuration with the embedding section's provider set to p. */
  function WithProvider(config: map<string, Value>, p: string): map<string, Value>
    requires Section(config, "embedding_model").Some?
  {
    config["embedding_model" := Dict(Section(config, "embedding_model").value["provider" := Str(p)])]
  }

  /** The provider is compared case-insensitively: providers equal up to case choose the same model. */
  lemma ProviderIgnoresCase(config: map<string, Value>, p: string, q: string, googleAvailable: bool)
    requires Section(config, "embedding_model").Some?
    requires Lower(p) == Lower(q)
    ensures LoadEmbeddings(WithProvider(config, p), googleAvailable) == LoadEmbeddings(WithProvider(config, q), googleAvailable)
  {
    var c1, c2 := WithProvider(config, p), WithProvider(config, q);
    var e1, e2 := Section(c1, "embedding_model").value, Section(c2, "embedding_model").value;
    assert Get(e1, "model_name", Null) == Get(e2, "model_name", Null);
    assert ProviderName(e1) == Some(Lower(p));
    assert ProviderName(e2) == Some(Lower(q));
  }

  /** An upper-case HuggingFace provider still selects HuggingFace. */
  lemma UpperCaseProvider(config: map<string, Value>, googleAvailable: bool)
    requires Section(config, "embedding_model").Some?
    requires Truthy(Get(Section(config, "embedding_model").value, "model_name", Null))
    ensures LoadEmbeddings(WithProvider(config, "HuggingFace"), googleAvailable).Ok?
    ensures LoadEmbeddings(WithProvider(config, "HuggingFace"), googleAvailable).value.HuggingFace?
  {
    var c := WithProvider(config, "HuggingFace");
    var emb := Section(c, "embedding_model").value;
    assert Lower("HuggingFace") == "huggingface";
    assert ProviderName(emb) == Some("huggingface");
    assert Get(emb, "model_name", Null) == Get(Section(config, "embedding_model").value, "model_name", Null);
  }

  /** Without a model name nothing is chosen, whatever string provider is configured. */
  lemma ModelNameCheckedFirst(config: map<string, Value>, p: string, googleAvailable: bool)
    requires Section(config, "embedding_model").Some?
    requires !Truthy(Get(Section(config, "embedding_model").value, "model_name", Null))
    ensures LoadEmbeddings(WithProvider(config, p), googleAvailable) == Err(EmbeddingModelNameMissing)
  {
    var c := WithProvider(config, p);
    var emb := Section(c, "embedding_model").value;
    assert Get(emb, "model_name", Null) == Get(Section(config, "embedding_model").value, "model_name", Null);
    assert ProviderName(emb) == Some(Lower(p));
  }

  /** The configuration of the unknown-provider test: provider "??" is refused with a ValueError. */
  lemma UnknownProviderRaisesValueError()
    ensures var config := map["embedding_model" := Dict(map["provider" := Str("??"), "model_name" := Str("m")]),
                              "llm" := Dict(map["provider" := Str("Groq"), "model_name" := Str("deepseek")])];
      && LoadEmbeddings(config, true) == Err(UnknownEmbeddingsProvider("??"))
      && IsValueError(LoadEmbeddings(config, true).error)
  {
    var emb := map["provider" := Str("??"), "model_name" := Str("m")];
    assert Lower("??") == "??";
    assert ProviderName(emb) == Some("??");
  }

  /** The chat model's provider entry is never consulted. */
  lemma LlmIgnoresProvider(config: map<string, Value>, v: Value)
    requires Section(config, "llm").Some?
    ensures var c := config["llm" := Dict(Section(config, "llm").value["provider" := v])];
      LoadLlm(c) == LoadLlm(config)
  {
    var llm := Section(config, "llm").value;
    var c := config["llm" := Dict(llm["provider" := v])];
    var llm' := Section(c, "llm").value;
    assert Get(llm', "model_name", Null) == Get(llm, "model_name", Null);
    assert Get(llm', "temperature", Int(0)) == Get(llm, "temperature", Int(0));
    assert Get(llm', "max_output_tokens", Int(2048)) == Get(llm, "max_output_tokens", Int(2048));
  }

  /** A chat model section with only a model name gets temperature 0 and 2048 tokens. */
  lemma LlmDefaults(config: map<string, Value>, name: string)
    requires name != ""
    ensures LoadLlm(config["llm" := Dict(map["model_name" := Str(name)])]) == Ok(Groq(Str(name), Int(0), Int(2048)))
  {
    var c := config["llm" := Dict(map["model_name" := Str(name)])];
    assert Section(c, "llm") == Some(map["model_name" := Str(name)]);
  }
}
