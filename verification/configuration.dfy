/**
 Construction of a `ReadmeGenerator`: how the provider, the model name and
 the OpenAI key are resolved from the constructor's arguments, the process
 environment and the built-in defaults, and when construction is refused.

 The environment is an explicit map: it stands for `os.environ` after
 `load_dotenv()` has merged the `.env` file into it.
 */
module Configuration {
  import opened Wrappers

  type Env = map<string, string>

  datatype Provider = OpenAI | Ollama

  /** The name a provider is selected by. */
  function ProviderName(p: Provider): string {
    match p
    case OpenAI => "openai"
    case Ollama => "ollama"
  }

  /**
   A constructed generator. `apiKey` is only set for OpenAI; the Ollama
   branch never stores a key.
   */
  datatype Config = Config(provider: Provider, model: string, apiKey: Option<string>)

  datatype ConfigError = MissingApiKey | UnsupportedProvider(name: string)

  /** The text of the `ValueError` raised for each refusal. */
  function ErrorMessage(e: ConfigError): string {
    match e
    case MissingApiKey => MissingApiKeyMessage
    case UnsupportedProvider(name) => UnsupportedPrefix + name + UnsupportedSuffix
  }

  /** Python truthiness of an optional string: present and non-empty. */
  predicate Truthy(o: Option<string>) {
    o.Some? && o.value != ""
  }

  /** `os.getenv(key, default)`: a present variable wins even when it is empty. */
  function GetEnv(env: Env, key: string, default: string): string {
    if key in env then env[key] else default
  }

  /** `os.getenv(key)`: `None` when the variable is absent. */
  function LookupEnv(env: Env, key: string): Option<string> {
    if key in env then Some(env[key]) else None
  }

  /** The constructor's default arguments. */
  const DefaultModel := "gpt-4o-mini"
  const DefaultProvider := "ollama"

  /** `provider or os.getenv("AI_PROVIDER", "ollama")`. */
  function ResolveProviderName(provider: Option<string>, env: Env): string {
    if Truthy(provider) then provider.value else GetEnv(env, "AI_PROVIDER", "ollama")
  }

  /** `model or os.getenv("MODEL_NAME", <per-provider default>)`. */
  function ResolveModel(model: Option<string>, providerName: string, env: Env): string {
    if Truthy(model) then model.value
    else GetEnv(env, "MODEL_NAME", if providerName == "ollama" then "llama3" else "gpt-4o-mini")
  }

  /** `api_key or os.getenv("OPENAI_API_KEY")`. */
  function ResolveApiKey(apiKey: Option<string>, env: Env): Option<string> {
    if Truthy(apiKey) then apiKey else LookupEnv(env, "OPENAI_API_KEY")
  }

  /** Some non-empty OpenAI key is available from the argument or the environment. */
  predicate KeyAvailable(apiKey: Option<string>, env: Env) {
    Truthy(apiKey) || ("OPENAI_API_KEY" in env && env["OPENAI_API_KEY"] != "")
  }

  /**
   `ReadmeGenerator.__init__(api_key, model, provider)`. Construction succeeds
   exactly for Ollama, and for OpenAI when a non-empty key is available; the
   configuration records the resolved provider and model, and an OpenAI
   configuration always carries a non-empty key.
   */
  function Init(apiKey: Option<string>, model: Option<string>, provider: Option<string>, env: Env)
    : (r: Result<Config, ConfigError>)
    ensures var name := ResolveProviderName(provider, env);
            r.Success? <==> name == "ollama" || (name == "openai" && KeyAvailable(apiKey, env))
    ensures r.Success? ==>
              && ProviderName(r.value.provider) == ResolveProviderName(provider, env)
              && r.value.model == ResolveModel(model, ResolveProviderName(provider, env), env)
    ensures r.Success? && r.value.provider == OpenAI ==> Truthy(r.value.apiKey)
    ensures r.Success? && r.value.provider == OpenAI && Truthy(apiKey) ==> r.value.apiKey == apiKey
    ensures r.Success? && r.value.provider == OpenAI && !Truthy(apiKey) ==>
              "OPENAI_API_KEY" in env && r.value.apiKey == Some(env["OPENAI_API_KEY"])
    ensures r.Success? && r.value.provider == Ollama ==> r.value.apiKey == None
    ensures r.Failure? ==>
              (r.error == MissingApiKey <==> ResolveProviderName(provider, env) == "openai")
    ensures r.Failure? && r.error.UnsupportedProvider? ==>
              r.error.name == ResolveProviderName(provider, env)
  {
    var name := ResolveProviderName(provider, env);
    var m := ResolveModel(model, name, env);
    if name == "openai" then
      var key := ResolveApiKey(apiKey, env);
      if !Truthy(key) then Failure(MissingApiKey)
      else Success(Config(OpenAI, m, key))
    else if name == "ollama" then
      Success(Config(Ollama, m, None))
    else
      Failure(UnsupportedProvider(name))
  }

  /**
   `ReadmeGenerator()` with every argument left at its default selects
   Ollama with the model `gpt-4o-mini`, whatever the environment says: the
   defaults are truthy, so `AI_PROVIDER` and `MODEL_NAME` are never read.
   */
  lemma BareConstructor(env: Env)
    ensures Init(None, Some(DefaultModel), Some(DefaultProvider), env)
         == Success(Config(Ollama, "gpt-4o-mini", None))
  {
  }

  /** The environment is consulted only for arguments that are falsy. */
  lemma ExplicitArgumentsIgnoreEnvironment(
    apiKey: Option<string>, model: Option<string>, provider: Option<string>, env1: Env, env2: Env)
    requires Truthy(model) && Truthy(provider)
    requires provider.value == "openai" ==> Truthy(apiKey)
    ensures Init(apiKey, model, provider, env1) == Init(apiKey, model, provider, env2)
  {
  }

  /** Selecting OpenAI with no key from either source fails at construction. */
  lemma OpenAIWithoutKeyFails(apiKey: Option<string>, model: Option<string>, provider: Option<string>, env: Env)
    requires ResolveProviderName(provider, env) == "openai"
    requires !Truthy(apiKey)
    requires "OPENAI_API_KEY" !in env || env["OPENAI_API_KEY"] == ""
    ensures Init(apiKey, model, provider, env) == Failure(MissingApiKey)
  {
  }

  /** Both environments hold the same value for `key`, or both lack it. */
  predicate AgreeOn(env1: Env, env2: Env, key: string) {
    (key in env1 <==> key in env2) && (key in env1 ==> env1[key] == env2[key])
  }

  /**
   Construction reads no environment variable other than `AI_PROVIDER`,
   `MODEL_NAME` and `OPENAI_API_KEY`: environments that agree on those three
   give the same outcome.
   */
  lemma ReadsOnlyThreeVariables(
    apiKey: Option<string>, model: Option<string>, provider: Option<string>, env1: Env, env2: Env)
    requires AgreeOn(env1, env2, "AI_PROVIDER")
    requires AgreeOn(env1, env2, "MODEL_NAME")
    requires AgreeOn(env1, env2, "OPENAI_API_KEY")
    ensures Init(apiKey, model, provider, env1) == Init(apiKey, model, provider, env2)
  {
  }

  /** The refusal text when no OpenAI key is found; split into three literals only because the verifier handles short literals more cheaply. */
  const MissingApiKeyMessage :=
    "OpenAI API key not found. " + "Please set OPENAI_API_KEY in .env file " + "or pass it as an argument."
  const UnsupportedPrefix := "Unsupported provider: "
  const UnsupportedSuffix := ". Use 'openai' or 'ollama'."

  /**
   The message of a refused construction: the missing-key text when the
   resolved provider is `openai`, otherwise the unsupported-provider text
   naming the resolved provider.
   */
  lemma RefusalMessage(apiKey: Option<string>, model: Option<string>, provider: Option<string>, env: Env)
    ensures var r := Init(apiKey, model, provider, env);
            var name := ResolveProviderName(provider, env);
            r.Failure? ==>
              && (name == "openai" ==> ErrorMessage(r.error) == MissingApiKeyMessage)
              && (name != "openai" ==> ErrorMessage(r.error) == UnsupportedPrefix + name + UnsupportedSuffix)
  {
  }

  /**
   The message tells the refusals apart: the missing-key message is never an
   unsupported-provider message, and an unsupported-provider message names
   exactly one provider.
   */
  lemma ErrorMessageIdentifiesError(e1: ConfigError, e2: ConfigError)
    requires ErrorMessage(e1) == ErrorMessage(e2)
    ensures e1 == e2
  {
    if e1.UnsupportedProvider? && e2.UnsupportedProvider? {
      var m := ErrorMessage(e1);
      var n := |UnsupportedPrefix|;
      assert |e1.name| == |e2.name|;
      assert m[n..n + |e1.name|] == e1.name;
      assert ErrorMessage(e2)[n..n + |e2.name|] == e2.name;
    } else if e1.UnsupportedProvider? {
      MissingKeyIsNotUnsupported(e1.name);
      assert false;
    } else if e2.UnsupportedProvider? {
      MissingKeyIsNotUnsupported(e2.name);
      assert false;
    }
  }

  /** The two message templates already differ in their first character. */
  lemma MissingKeyIsNotUnsupported(name: string)
    ensures ErrorMessage(MissingApiKey) != ErrorMessage(UnsupportedProvider(name))
  {
    assert ErrorMessage(MissingApiKey)[0] == 'O';
    assert ErrorMessage(UnsupportedProvider(name))[0] == 'U';
  }
}
