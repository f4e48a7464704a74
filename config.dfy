/**
 * The AI settings (`AIConfig`): which provider to use, its key and model, and
 * whether the AI features are switched on. Values the original reads from the
 * environment are constructor parameters here.
 */
module Config {

  /** The key value shipped in the example environment file; it never counts as a key. */
  const Placeholder := "your-api-key-here"

  /** A key is configured when it is non-empty and not the placeholder. */
  predicate KeyConfigured(key: string) {
    key != "" && key != Placeholder
  }

  /** The provider after construction: "gemini" or "groq", anything else becoming "gemini". */
  function CoerceProvider(p: string): (r: string)
    ensures r == "gemini" || r == "groq"
    ensures p == "gemini" || p == "groq" ==> r == p
    ensures p != "gemini" && p != "groq" ==> r == "gemini"
  {
    if p == "gemini" || p == "groq" then p else "gemini"
  }

  class AIConfig {
    var provider: string
    var apiKey: string
    var geminiModel: string
    var groqApiKey: string
    var groqModel: string
    var maxTokens: int
    var temperature: real
    var timeout: int

    /**
     * `AIConfig(...)` followed by its post-initialisation check, which resets
     * an unknown provider to "gemini".
     */
    constructor(provider: string, apiKey: string, geminiModel: string, groqApiKey: string,
                groqModel: string, maxTokens: int, temperature: real, timeout: int)
      ensures this.provider == CoerceProvider(provider)
      ensures this.apiKey == apiKey && this.geminiModel == geminiModel
      ensures this.groqApiKey == groqApiKey && this.groqModel == groqModel
      ensures this.maxTokens == maxTokens && this.temperature == temperature && this.timeout == timeout
    {
      this.provider := provider;
      this.apiKey := apiKey;
      this.geminiModel := geminiModel;
      this.groqApiKey := groqApiKey;
      this.groqModel := groqModel;
      this.maxTokens := maxTokens;
      this.temperature := temperature;
      this.timeout := timeout;
      new;
      if this.provider != "gemini" && this.provider != "groq" {
        this.provider := "gemini";
      }
    }

    /** `AIConfig()` with no environment overrides: Gemini, no keys, so not enabled. */
    constructor Defaults()
      ensures provider == "gemini" && apiKey == "" && geminiModel == "gemini-flash-latest"
      ensures groqApiKey == "" && groqModel == "llama-3.2-3b-preview"
      ensures maxTokens == 2000 && temperature == 0.7 && timeout == 10
      ensures !IsEnabled()
    {
      provider := "gemini";
      apiKey := "";
      geminiModel := "gemini-flash-latest";
      groqApiKey := "";
      groqModel := "llama-3.2-3b-preview";
      maxTokens := 2000;
      temperature := 0.7;
      timeout := 10;
    }

    /** The model of the current provider; any provider but "groq" uses the Gemini model. */
    function Model(): (m: string)
      reads this
      ensures provider == "groq" ==> m == groqModel
      ensures provider != "groq" ==> m == geminiModel
    {
      if provider == "gemini" then geminiModel
      else if provider == "groq" then groqModel
      else geminiModel
    }

    /** The key the current provider authenticates with; any provider but "groq" uses the Gemini key. */
    function ActiveKey(): (k: string)
      reads this
      ensures provider == "groq" ==> k == groqApiKey
      ensures provider != "groq" ==> k == apiKey
    {
      if provider == "groq" then groqApiKey else apiKey
    }

    /**
     * `is_enabled`: the provider is a known one and its own key is configured;
     * the other provider's key plays no part.
     */
    function IsEnabled(): (b: bool)
      reads this
      ensures provider == "gemini" ==> (b <==> KeyConfigured(apiKey))
      ensures provider == "groq" ==> (b <==> KeyConfigured(groqApiKey))
      ensures provider != "gemini" && provider != "groq" ==> !b
      ensures b ==> KeyConfigured(ActiveKey())
    {
      if provider == "gemini" then KeyConfigured(apiKey)
      else if provider == "groq" then KeyConfigured(groqApiKey)
      else false
    }
  }

  /**
   * After construction the provider is a known one, so the configuration is
   * enabled exactly when the key of that provider is configured.
   */
  lemma EnabledIffActiveKey(cfg: AIConfig)
    requires cfg.provider == "gemini" || cfg.provider == "groq"
    ensures cfg.IsEnabled() <==> KeyConfigured(cfg.ActiveKey())
  {
  }

  /** A blank or placeholder key never enables the provider it belongs to. */
  lemma PlaceholderNeverEnables(cfg: AIConfig)
    requires cfg.ActiveKey() == "" || cfg.ActiveKey() == Placeholder
    ensures !cfg.IsEnabled()
  {
  }
}
