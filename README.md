# HuggingChat provider: model resolution and stream folding

This project models the two pieces of decision logic inside the HuggingChat provider's
`create_async_generator` (g4f/Provider/HuggingChat.py) and proves what they promise.

- **Model resolution** (`HuggingChatModels`, models.dfy). The requested model name becomes the name
  sent to the service. An empty name becomes the default model `meta-llama/Llama-2-70b-chat-hf`.
  A key of the alias map becomes its mapped value. A name on the allow-list passes unchanged, and
  any other name is rejected with "Model is not supported: <name>". The alias check comes before the
  allow-list, so `mistralai/Mixtral-8x7B-Instruct-v0.1`, which is on both, is redirected. The alias
  target is not checked again: `openchat/openchat_3.5` becomes `openchat/openchat-3.5-1210`, and that
  name is not on the allow-list. `ResolveModel` is a total function returning a `Result`.
- **Stream folding** (`HuggingChatStream`, stream.dfy). The response body is taken as a sequence of
  already-decoded events, each with an optional `type` and an optional `token`. `ConsumeStream` is
  the loop of the source: a `first_token` flag, an accumulator of emitted tokens, a `break` on the
  first `"finalAnswer"`, and a mid-loop error for an event without a type. It is proved equal to the
  recursive specification `Process`/`Fold`. `Fold` is in turn proved equal to an independent
  description (`Expected`): find the first event where processing stops (`StopIndex`), emit the
  tokens of the `"stream"` events before it with only the first one left-stripped, and fail if the
  stopping event raises.
- **Left-stripping** (`Text`, text.dfy). `LStrip` is Python's `str.lstrip()` without arguments.
  `IsSpace` is the character set of Python's `str.isspace()`.
- `Wrappers` (wrappers.dfy) holds `Option` and `Result`.

A `"stream"` event without a `token` field makes the source raise `KeyError` at `line["token"]`.
The model keeps that error path as `MissingToken`, so `Event.token` is optional.

## Model

| member | source | states |
|---|---|---|
| `HuggingChatModels.ResolveModel` | g4f/Provider/HuggingChat.py:40-45 | resolution succeeds exactly when the name is empty, an alias key or on the allow-list; a rejection names the requested model |
| `HuggingChatModels.ResolveEmpty` | g4f/Provider/HuggingChat.py:15-41 | an empty name resolves to "meta-llama/Llama-2-70b-chat-hf" without error, and that default is on the allow-list |
| `HuggingChatModels.ResolveAlias` | g4f/Provider/HuggingChat.py:42-43 | every alias key resolves to exactly its mapped value |
| `HuggingChatModels.AliasBeatsAllowList` | g4f/Provider/HuggingChat.py:17-43 | "mistralai/Mixtral-8x7B-Instruct-v0.1" is both allowed and an alias, and it resolves to "mistralai/Mistral-7B-Instruct-v0.2" |
| `HuggingChatModels.AliasTargetNotRevalidated` | g4f/Provider/HuggingChat.py:16-45 | "openchat/openchat_3.5" resolves to "openchat/openchat-3.5-1210", which is not allowed and is rejected when requested directly, so resolution is not idempotent |
| `HuggingChatModels.ResolveListed` | g4f/Provider/HuggingChat.py:44-45 | a non-empty, non-alias name on the allow-list is returned unchanged |
| `HuggingChatModels.ResolveUnsupported` | g4f/Provider/HuggingChat.py:44-45 | a non-empty name that is neither an alias nor allowed is rejected with "Model is not supported: " followed by the name |
| `HuggingChatModels.ResolvedNames` | g4f/Provider/HuggingChat.py:40-45 | a resolved name is always on the allow-list or an alias target |
| `Text.LStrip` | g4f/Provider/HuggingChat.py:75 | the result is a suffix of the input, everything cut off is whitespace, and the result does not start with whitespace |
| `HuggingChatStream.StopIndex` | g4f/Provider/HuggingChat.py:70-79 | the least index whose event is a "finalAnswer" or raises, or the length when there is none |
| `HuggingChatStream.FinalIndex` | g4f/Provider/HuggingChat.py:78-79 | the least index of a "finalAnswer" event, or the length when there is none |
| `HuggingChatStream.FoldCharacterized` | g4f/Provider/HuggingChat.py:67-79 | for either flag value, the fold emits the tokens of the "stream" events before the stop index, the first one stripped when the flag is set, and fails exactly with the error of the stopping event |
| `HuggingChatStream.ConsumeStream` | g4f/Provider/HuggingChat.py:67-79 | the loop's emitted tokens and error equal the specification `Process` and the independent description `Expected` |
| `HuggingChatStream.ErrorFreeIff` | g4f/Provider/HuggingChat.py:70-79 | processing ends without error if and only if no event before the first "finalAnswer" raises |
| `HuggingChatStream.ErrorFreeTokens` | g4f/Provider/HuggingChat.py:72-79 | without an error, the emitted tokens are the tokens of the "stream" events before the first "finalAnswer", in order, only the first one left-stripped |
| `HuggingChatStream.EmittedShape` | g4f/Provider/HuggingChat.py:74-77 | one emitted token per source token; every token after the first is unchanged; the first is a suffix of its source token, has no leading whitespace, and only whitespace was cut from it |
| `HuggingChatStream.StoppedIgnoresTail` | g4f/Provider/HuggingChat.py:70-79 | once processing has stopped, appending further events changes neither output nor error |
| `HuggingChatStream.AfterFinalIgnored` | g4f/Provider/HuggingChat.py:78-79 | events after a "finalAnswer" have no effect on output or errors |
| `HuggingChatStream.SkippedEventInvisible` | g4f/Provider/HuggingChat.py:70-79 | an event whose type is neither "stream" nor "finalAnswer" can be removed from any position without changing output, error or the first-token flag |
| `HuggingChatStream.FailsThere` | g4f/Provider/HuggingChat.py:70-73 | an event that raises before any stop fails processing with its own error, after exactly the tokens of the "stream" events before it; an event without a type gives the missing-type error |
| `HuggingChatStream.EmittedBound` | g4f/Provider/HuggingChat.py:72-77 | no more tokens are emitted than there are "stream" events |
| `HuggingChatStream.HelloWorldExample` | g4f/Provider/HuggingChat.py:72-79 | tokens "  Hello" and " world" followed by "finalAnswer" give exactly ["Hello", " world"] and no error |
| `HuggingChatStream.MissingTypeExample` | g4f/Provider/HuggingChat.py:70-77 | an event without a type after the token "Hi" gives ["Hi"] and the missing-type error carrying that event, and the later token is never emitted |

## Left out

- The HTTP session, the POST that creates the conversation, the POST that sends the prompt, the
  DELETE that removes the conversation, proxies, headers and `raise_for_status`
  (g4f/Provider/HuggingChat.py:49-66, :81-82): network I/O. The stream events are a parameter of
  `ConsumeStream`, standing for the response body. It follows that the skipped cleanup on the error
  path is not modelled either.
- Cookie lookup and prompt formatting (`get_cookies`, `format_prompt`, :46-47, :61): their code is in
  g4f/Provider/helper.py, which is not part of this model, and cookie lookup reads browser storage.
- The random request and response ids (`uuid.uuid4()`, :60, :63): random generation.
- JSON decoding and the removal of each line's last byte (:69): a library call. Events are taken
  as decoded objects whose `type` and `token` are strings when present. Lines that are not JSON
  objects, and fields whose values are not strings, are not modelled.
- The asynchronous generator (:68, :77): consumer cancellation and interleaving are not modelled.
  The output is a returned sequence followed by the optional error.
- `ResolveModel`: Python's `if not model` also treats `None` as empty. The model's parameter is a
  string, so the empty string stands for both.
- The text of the `RuntimeError` raised for an event without a type (:71) is the Python
  representation of the decoded object. The model carries the event itself instead.
