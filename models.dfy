/** Model-name resolution of the HuggingChat provider: the name the caller asks for is turned into
    the name sent to the service, or rejected before any request is made. */
module HuggingChatModels {
  import opened Wrappers

  /** The model used when the caller gives no name. */
  const DefaultModel: string := "meta-llama/Llama-2-70b-chat-hf"

  /** The allow-list, in the order the provider declares it. */
  const Models: seq<string> := [
    "mistralai/Mixtral-8x7B-Instruct-v0.1",
    "meta-llama/Llama-2-70b-chat-hf",
    "NousResearch/Nous-Hermes-2-Mixtral-8x7B-DPO",
    "codellama/CodeLlama-34b-Instruct-hf",
    "mistralai/Mistral-7B-Instruct-v0.2",
    "openchat/openchat-3.5-0106"
  ]

  /** Aliases: a requested name that is a key here is replaced by its value. */
  const ModelMap: map<string, string> := map[
    "openchat/openchat_3.5" := "openchat/openchat-3.5-1210",
    "mistralai/Mixtral-8x7B-Instruct-v0.1" := "mistralai/Mistral-7B-Instruct-v0.2"
  ]

  /** The validation error; it names the rejected model. */
  datatype ResolveError = ModelNotSupported(model: string)
  {
    function Message(): string
    {
      "Model is not supported: " + model
    }
  }

  /** The if/elif chain of the provider: the empty name first, then the alias map, then the
      allow-list. */
  function ResolveModel(model: string): (r: Result<string, ResolveError>)
    ensures r.Ok? <==> model == "" || model in ModelMap || model in Models
    ensures r.Err? ==> r.error.model == model
  {
    if model == "" then Ok(DefaultModel)
    else if model in ModelMap then Ok(ModelMap[model])
    else if model !in Models then Err(ModelNotSupported(model))
    else Ok(model)
  }

  /** An empty name resolves to the default model, which is itself allowed. */
  lemma ResolveEmpty()
    ensures ResolveModel("") == Ok("meta-llama/Llama-2-70b-chat-hf")
    ensures DefaultModel in Models
  {
  }

  /** Every alias key resolves to exactly its mapped value, whether or not it is also allowed. */
  lemma ResolveAlias(model: string)
    requires model in ModelMap
    ensures ResolveModel(model) == Ok(ModelMap[model])
  {
  }

  /** The alias check comes before the allow-list: a name in both lists is still redirected. */
  lemma AliasBeatsAllowList()
    ensures "mistralai/Mixtral-8x7B-Instruct-v0.1" in Models
    ensures "mistralai/Mixtral-8x7B-Instruct-v0.1" in ModelMap
    ensures ResolveModel("mistralai/Mixtral-8x7B-Instruct-v0.1") == Ok("mistralai/Mistral-7B-Instruct-v0.2")
  {
  }

  /** The alias map is applied once and its target is not checked against the allow-list: the
      name sent for "openchat/openchat_3.5" would itself be rejected if requested directly, so
      resolution is not idempotent. */
  lemma AliasTargetNotRevalidated()
    ensures ResolveModel("openchat/openchat_3.5") == Ok("openchat/openchat-3.5-1210")
    ensures "openchat/openchat-3.5-1210" !in Models
    ensures ResolveModel("openchat/openchat-3.5-1210") == Err(ModelNotSupported("openchat/openchat-3.5-1210"))
  {
  }

  /** A non-empty, non-alias name on the allow-list is sent unchanged. */
  lemma ResolveListed(model: string)
    requires model != "" && model !in ModelMap && model in Models
    ensures ResolveModel(model) == Ok(model)
  {
  }

  /** A non-empty name that is neither an alias nor allowed is rejected, naming that model. */
  lemma ResolveUnsupported(model: string)
    requires model != "" && model !in ModelMap && model !in Models
    ensures ResolveModel(model) == Err(ModelNotSupported(model))
    ensures ResolveModel(model).error.Message() == "Model is not supported: " + model
  {
  }

  /** What can be sent: the default, an allowed name or an alias target, and nothing else. */
  lemma ResolvedNames(model: string)
    requires ResolveModel(model).Ok?
    ensures ResolveModel(model).value in Models || ResolveModel(model).value in ModelMap.Values
  {
  }
}
