/** The model settings dialog: which summarisation providers need an API
    key, when the Done button is enabled, how a provider or model choice
    rewrites the configuration, and what saving stores. */
module ModelSettings {
  import opened Wrappers
  import opened Strings

  datatype Provider = Ollama | Groq | Claude | OpenAI

  /** The summarisation configuration. `model` is `None` where the code
      stores `undefined` (the first Ollama model when none is installed);
      `apiKey` is `None` for a missing or null key. */
  datatype ModelConfig = ModelConfig(provider: Provider, model: Option<string>, whisperModel: string, apiKey: Option<string>)

  /** The models offered per provider; Ollama offers the names of the
      locally installed models. */
  function ModelOptions(p: Provider, ollamaNames: seq<string>): seq<string>
  {
    match p
    case Ollama => ollamaNames
    case Claude => ["claude-3-5-sonnet-latest", "claude-3-5-sonnet-20241022", "claude-3-5-sonnet-20240620"]
    case Groq => ["llama-3.3-70b-versatile"]
    case OpenAI => [
      "gpt-4o", "gpt-4.1", "gpt-4-turbo", "gpt-3.5-turbo", "gpt-4o-2024-11-20", "gpt-4o-2024-08-06",
      "gpt-4o-mini-2024-07-18", "gpt-4.1-2025-04-14", "gpt-4.1-nano-2025-04-14", "gpt-4.1-mini-2025-04-14",
      "o4-mini-2025-04-16", "o3-2025-04-16", "o3-mini-2025-01-31", "o1-2024-12-17", "o1-mini-2024-09-12",
      "gpt-4-turbo-2024-04-09", "gpt-4-0125-Preview", "gpt-4-vision-preview", "gpt-4-1106-Preview",
      "gpt-3.5-turbo-0125", "gpt-3.5-turbo-1106"]
  }

  /** `options[0]`, which is `undefined` for an empty list. */
  function First(options: seq<string>): (r: Option<string>)
    ensures r.Some? <==> |options| > 0
    ensures r.Some? ==> r.value == options[0]
  {
    if |options| == 0 then None else Some(options[0])
  }

  /** The hosted providers need a key. */
  predicate RequiresApiKey(p: Provider)
  {
    p == Claude || p == Groq || p == OpenAI
  }

  /** Done is disabled while a key is needed and the typed key is blank. */
  predicate IsDoneDisabled(p: Provider, apiKey: string)
  {
    RequiresApiKey(p) && Trim(apiKey) == ""
  }

  /** Only the local provider works without a key; Done is disabled exactly
      for a hosted provider with a key made only of white space. */
  lemma DoneDisabledCases(p: Provider, apiKey: string)
    ensures RequiresApiKey(p) <==> p != Ollama
    ensures IsDoneDisabled(p, apiKey) <==> p != Ollama && forall k :: 0 <= k < |apiKey| ==> IsSpace(apiKey[k])
  {
  }

  /** The provider select: switch the provider and pick its first model,
      keeping the transcription model and the key as they were. */
  function ChangeProvider(config: ModelConfig, p: Provider, ollamaNames: seq<string>): (r: ModelConfig)
    ensures r.provider == p
    ensures r.model == First(ModelOptions(p, ollamaNames))
    ensures r.whisperModel == config.whisperModel && r.apiKey == config.apiKey
  {
    config.(provider := p, model := First(ModelOptions(p, ollamaNames)))
  }

  /** After a provider switch the model is one the provider offers; only an
      Ollama without installed models leaves it undefined. */
  lemma ChangeProviderOffers(config: ModelConfig, p: Provider, ollamaNames: seq<string>)
    ensures var r := ChangeProvider(config, p, ollamaNames);
            (r.model.Some? ==> r.model.value in ModelOptions(p, ollamaNames))
            && (r.model.None? <==> p == Ollama && ollamaNames == [])
  {
  }

  /** Choosing a model (from the select or from an Ollama card). */
  function SelectModel(config: ModelConfig, m: string): (r: ModelConfig)
    ensures r.model == Some(m)
    ensures r.provider == config.provider && r.whisperModel == config.whisperModel && r.apiKey == config.apiKey
  {
    config.(model := Some(m))
  }

  /** Choosing a model twice keeps the second, and switching the provider
      after a model choice forgets the choice. */
  lemma SelectionsOverride(config: ModelConfig, a: string, b: string, p: Provider, ollamaNames: seq<string>)
    ensures SelectModel(SelectModel(config, a), b) == SelectModel(config, b)
    ensures ChangeProvider(SelectModel(config, a), p, ollamaNames) == ChangeProvider(config, p, ollamaNames)
  {
  }

  /** The configuration `handleSave` stores and passes on: the one shown,
      with the trimmed key. */
  function SavedConfig(config: ModelConfig, apiKey: string): (r: ModelConfig)
    ensures r.apiKey == Some(Trim(apiKey))
    ensures r.provider == config.provider && r.model == config.model && r.whisperModel == config.whisperModel
  {
    config.(apiKey := Some(Trim(apiKey)))
  }

  /** A configuration saved with Done enabled carries a non-blank key for
      every provider that needs one, and saving it again changes nothing. */
  lemma SavedKeyUsable(config: ModelConfig, apiKey: string)
    requires !IsDoneDisabled(config.provider, apiKey)
    ensures RequiresApiKey(config.provider) ==> SavedConfig(config, apiKey).apiKey.value != ""
    ensures SavedConfig(SavedConfig(config, apiKey), Trim(apiKey)) == SavedConfig(config, apiKey)
  {
    TrimIdempotent(apiKey);
  }

  /** The dialog's state: the configuration it edits (held by its parent),
      the key as typed, whether it is open, and the configurations handed to
      `onSave` so far. */
  class Modal {
    var config: ModelConfig
    var apiKey: string
    var shown: bool
    var saved: seq<ModelConfig>

    /** Opening with a configuration: the key field starts as its key or
        empty. */
    constructor (config: ModelConfig)
      ensures this.config == config && apiKey == config.apiKey.GetOr("")
      ensures shown && saved == []
    {
      this.config := config;
      this.apiKey := config.apiKey.GetOr("");
      this.shown := true;
      this.saved := [];
    }

    method ChooseProvider(p: Provider, ollamaNames: seq<string>)
      modifies this
      ensures config == ChangeProvider(old(config), p, ollamaNames)
      ensures apiKey == old(apiKey) && shown == old(shown) && saved == old(saved)
    {
      config := ChangeProvider(config, p, ollamaNames);
    }

    /** What the key request for the new provider answers (`data || ''`),
        or an empty key when it fails. */
    method KeyFetched(data: Option<string>)
      modifies this
      ensures apiKey == data.GetOr("")
      ensures config == old(config) && shown == old(shown) && saved == old(saved)
    {
      apiKey := data.GetOr("");
    }

    /** Typing in the key field (`setApiKey(e.target.value)`): the field
        holds what was typed; the configuration keeps its key until Done. */
    method TypeKey(k: string)
      modifies this
      ensures apiKey == k
      ensures config == old(config) && shown == old(shown) && saved == old(saved)
    {
      apiKey := k;
    }

    method ChooseModel(m: string)
      modifies this
      ensures config == SelectModel(old(config), m)
      ensures apiKey == old(apiKey) && shown == old(shown) && saved == old(saved)
    {
      config := SelectModel(config, m);
    }

    /** Done: ignored while disabled; otherwise `handleSave` stores the
        configuration with the trimmed key, closes the dialog and hands the
        same configuration to `onSave`. */
    method PressDone() returns (accepted: bool)
      modifies this
      ensures accepted <==> !IsDoneDisabled(old(config).provider, old(apiKey))
      ensures accepted ==>
                && config == SavedConfig(old(config), old(apiKey))
                && !shown
                && saved == old(saved) + [config]
      ensures !accepted ==> config == old(config) && shown == old(shown) && saved == old(saved)
      ensures apiKey == old(apiKey)
    {
      if IsDoneDisabled(config.provider, apiKey) {
        return false;
      }
      var updated := config.(apiKey := Some(Trim(apiKey)));
      config := updated;
      shown := false;
      saved := saved + [updated];
      accepted := true;
    }
  }
}
