# AI assistant editor plugin — decision logic in Dafny

This project models the decision logic of an Obsidian plugin. The plugin sends
note text to the Groq chat-completion API and writes the answer back into the
note as a collapsible callout. The I/O (HTTP requests, JSON parsing, notices,
widgets and timers) is replaced by plain inputs and outputs. What is left is
a set of pure functions over immutable values:

- **Settings** (`PluginSettings`, main.ts): the settings record, its
  documented defaults, the shallow overlay that loads stored data over those
  defaults, and the JSON save step.
- **Callout** (`Callout`, main.ts): the text `createCallout` inserts. The host
  editor is modelled as a document plus a selection (anchor and head offsets).
- **Model catalog** (`ModelCatalog`, settings.ts): the process-wide
  `ai_models` object. It is a map from model id to itself, plus the insertion
  order of its keys, which `Object.keys` reports.
- **Model refresh and key entry** (`ModelRegistry`, settings.ts):
  `updateAvalibaleModels` and the Submit handler of the API-key dialog.
- **Completion client** (`GroqClient`, groq.ts): the request built by `ask`,
  the classification of the provider's reply into an answer or the empty
  failure marker plus a notice, and `answer`, which inserts a non-empty answer
  as a callout.
- **Start-up** (`Plugin`, main.ts): `onload` with and without a stored key,
  and the callbacks of the three commands it registers.

Inputs that stand in for the outside world:

- the provider's replies: `ChatReply` and `ModelsReply`;
- the host's stored data: `Stored`, or `None` when `loadData()` gives `null`;
- the editor state: `Editor`.

Outputs that stand in for side effects:

- notices, as a list of strings;
- the requests that would be sent;
- the registrations made with the host;
- a flag for the periodic retry timer.

JavaScript's `undefined` is `None` of `JsValues.Option`. The `x || y` default
idiom is `OrElse` for strings and `NumberOrElse` for numbers. The host's
`replaceSelection` is assumed to replace the selected range and leave the
cursor after the inserted text. `getCursor()` is assumed to return the
selection head.

Some behaviours of the code are easy to miss; the model follows the code:

- A refresh that fails because an entry of the reply's `data` array is `null`
  keeps the ids stored before that entry. The catalog is not left untouched.
- The default model is the first key of the whole catalog, which accumulates
  over refreshes. It is not the first id of the latest reply.
- A successful refresh whose reply lists no models, while the catalog is
  empty and no model is set, sets the model to `undefined`.
  Later refreshes then never select a model, because `undefined == ""` is
  false. A save and reload turns it back into `""`
  (`PluginSettings.UndefinedModelResetOnReload`).
- The model refresh does not check the status code. Only a request that
  throws, or a body that cannot be read, fails it.
- The start-up retry timer is never cleared, even after a refresh succeeds.

## Model

| member | source | states |
|---|---|---|
| PluginSettings.Load | main.ts:94-96 | each field present in the stored data overrides the default; each absent field keeps its `DEFAULT_SETTINGS` value; no stored data gives the defaults |
| PluginSettings.DefaultsAreDocumented | main.ts:17-25 | the defaults: empty key, empty model, temperature 0.8, no language; loading nothing equals loading an empty object |
| PluginSettings.Save | main.ts:98-99 | every field is written except an `undefined` model or language, which the JSON save drops |
| PluginSettings.SaveLoadRoundTrip | main.ts:94-101 | saving the settings and loading them again gives the same record when the model is defined |
| PluginSettings.UndefinedModelResetOnReload | main.ts:94-101 | an `undefined` model is dropped by the JSON save, so a reload gives back the empty model |
| JsValues.ParseNatToString | groq.ts:68 | the decimal text of a status code reads back as that code |
| GroqClient.StatusNoticeInjective | groq.ts:67-68 | different non-200 statuses give different notices |
| GroqClient.UpdateSettings | groq.ts:17-24 | the client caches the current model, the temperature and "Bearer " followed by the key; its profile instruction is never changed |
| GroqClient.UpdateSettingsKeepsLatest | groq.ts:17-24 | a second settings read overrides the first: the client ends up exactly as if it had read only the later settings |
| GroqClient.NewClient | groq.ts:11-24 | a new client keeps its profile instruction and caches the current model and temperature |
| GroqClient.SystemContent | groq.ts:44-48 | the system message holds, at fixed offsets, the profile instruction, the general instruction and the rule to answer 'ERROR' when there is no answer, and ends with the rendered language followed by the language rule's tail |
| GroqClient.Ask | groq.ts:37-94 | exactly two messages: system (profile, general and 'ERROR' rules) and user (the input, verbatim); model and key read at call time; a truthy explicit temperature wins, otherwise the cache from before the refresh is used; non-200 gives "" and the status notice; a malformed body or network failure gives "" and the generic notice; content "ERROR" gives "" and "No answer was found"; any other content is returned unchanged with no notice |
| GroqClient.AskAnswersIff | groq.ts:67-91 | `ask` gives a non-empty string iff status is 200 and content is neither empty nor "ERROR"; at most one notice; no notice exactly when the reply is classified as an answer |
| GroqClient.TemperatureReadBeforeRefresh | groq.ts:37-39 | the cached temperature lags the settings by one call; an explicit non-zero temperature always wins; the model is always read fresh |
| GroqClient.Answer | groq.ts:26-34 | an absent or empty input becomes the whole note; `ask` runs once; an empty result leaves the editor unchanged; otherwise `createCallout` as written inserts one callout with the given kind (default "ai-summary") and title "AI Summary", its blank line decided by the cursor's column |
| GroqClient.AnswerNoEditOnFailure | groq.ts:29-32 | any reply other than status 200 with content other than "ERROR" leaves the note unchanged |
| GroqClient.AnswerInsertsCallout | groq.ts:26-34 | a good answer replaces the selection with callout text, with no notice; inverting the callout template on that text gives back kind "ai-summary", title "AI Summary" and the answer unchanged, after a blank line exactly when the cursor (the selection head) is not at a line start |
| GroqClient.AnswerCorrectWhenHeadIsStart | groq.ts:33 | with no selection, or one whose head is its start, `answer` makes the corrected insertion, whose callout begins a line |
| GroqClient.AnswerAtLineStart | groq.ts:26-34 | with the cursor at a line start and nothing selected, a good answer is inserted as the bare callout block at the cursor |
| GroqClient.SummaryScenario | groq.ts:26-34 | with "The sky is blue." and the reply "The sky's color is blue." at a line start, the system message is built from the summary instruction and exactly `> [!ai-summary]- AI Summary\n> The sky's color is blue.\n\n` is inserted at the cursor |
| GroqClient.UnauthorizedScenario | groq.ts:67-68 | status 401 leaves the note unchanged and shows the single notice "Error in asking Groq (401)" |
| Callout.Column | main.ts:116-117 | the cursor column is the distance from the last line break before the offset; it is 0 exactly at a line start |
| Callout.CalloutText | main.ts:117-118 | at column 0 the inserted text is just the block; at any other column it is a blank line and then the block; it always ends with a blank line |
| Callout.CreateCalloutAsWritten | main.ts:114-119 | `createCallout` as written: the selection is replaced by the callout text whose blank line is decided by the column of the cursor (the selection head), and the text around the selection is kept |
| Callout.CalloutRoundTrip | main.ts:117-118 | the template is invertible: the inserted text gives back the kind, title and text it was built from; it starts with a blank line exactly when the column is not 0 |
| Callout.CreateCalloutStartsLine | main.ts:114-119 | the corrected insertion keeps the text around the selection and puts the callout marker at the start of a line |
| Callout.AsWrittenAgreesWhenHeadIsStart | main.ts:116-118 | with no selection, or with the head at the selection start, the code as written and the corrected insertion agree |
| Callout.AsWrittenMisplacesCallout | main.ts:116-118 | as written, "abc\n" selected from offset 1 to the start of line 2 puts the callout marker after "a", not at a line start |
| ModelCatalog.PutAll | settings.ts:220-222 | upserting ids keeps the catalog well formed; afterwards the keys are exactly the old keys plus the ids; old keys keep their order |
| ModelCatalog.PutAllOrder | settings.ts:220-222 | after an upsert the key order is the old order followed by the ids not yet present, each once, in the order they first occur in the reply |
| ModelCatalog.PutAllFromEmpty | settings.ts:220-222 | filling the start-up catalog `{}` gives exactly the ids as keys, the first id first |
| ModelCatalog.PutAllIdempotent | settings.ts:220-222 | upserting the same ids twice gives the same catalog as upserting them once |
| ModelCatalog.PutAllAppend | settings.ts:220-222 | upserting one list and then another gives the same catalog as upserting the two lists joined |
| ModelCatalog.PutAllKeepsAndAdds | settings.ts:220-222 | no entry is removed or changed; every upserted id is mapped to itself |
| ModelCatalog.FirstKey | settings.ts:225 | `Object.keys(ai_models)[0]` is the first key added, and `undefined` exactly for the empty catalog |
| ModelRegistry.LeadingIds | settings.ts:220-221 | the loop stores the ids before the first `null` entry; all of them when no entry is `null` |
| ModelRegistry.DefaultModel | settings.ts:225 | the fallback model is `undefined` exactly for the empty catalog, and otherwise a key of the catalog |
| ModelRegistry.DefaultModelChoice | settings.ts:224-225 | the default is "llama3-8b-8192" when present, else the first catalog key; `undefined` only for an empty catalog |
| ModelRegistry.Refresh | settings.ts:200-236 | no key at all gives false with nothing changed and no request; otherwise one GET to the models URL with the bearer key, a truthy explicit key winning over the stored one; true exactly when the body lists only objects with ids; a failed request or an unreadable body leaves the catalog untouched; a listed body upserts exactly the ids before the first `null`; nothing is removed; only the model field can change, and only when it was empty and the refresh succeeded, to the default choice |
| ModelRegistry.RefreshIdempotent | settings.ts:220-226 | refreshing again with the same key and reply changes nothing further |
| ModelRegistry.RefreshListedSucceeds | settings.ts:214-228 | with a usable key, a reply that lists only objects with ids makes the refresh return true with exactly those ids upserted and the key unchanged |
| ModelRegistry.DefaultAfterFirstUpsert | settings.ts:220-225 | after filling the empty catalog, the fallback is "llama3-8b-8192" if among the ids, else the first id |
| ModelRegistry.RefreshSelectsFirstListed | settings.ts:220-226 | on the start-up catalog with no model configured, a successful refresh selects "llama3-8b-8192" when the reply lists it, and otherwise the first id listed |
| ModelRegistry.RefreshUnion | settings.ts:220-222 | two successful refreshes leave the union of the old ids and both lists |
| ModelRegistry.RefreshFailureKeepsSelection | settings.ts:231-234 | a failed refresh keeps the settings unchanged and loses no catalog entry |
| ModelRegistry.SubmitKey | settings.ts:154-170 | a key shorter than 20 characters is refused with "Invalid API Key" and no request; otherwise the models are refreshed with the typed key and the catalog is the refresh's; the key is stored, with a reload, iff that refresh succeeds, the other settings being the refresh's; on failure the notice is "Unauthorized API Key" and the settings are unchanged |
| ModelRegistry.KeyStoredOnlyAfterSuccess | settings.ts:155-165 | the stored key changes only to the typed key, only when it is long enough and the refresh succeeded |
| ModelRegistry.SubmitAcceptsListedKey | settings.ts:155-169 | a key of 20 or more characters under which the provider lists its models is stored, the listed ids are upserted, and the plugin reloads |
| Plugin.Onload | main.ts:37-88 | without a key only the keyless tab is registered and nothing is changed; with a key the models are refreshed, a failure shows one notice and schedules the retry, and either way the status bar, then "create-summary" and "create-keypoints" (inserting answers) and "define-text" (showing the answer), each with its name and a client built from the refreshed settings and its own profile instruction, then the main tab are registered |
| Plugin.OnloadCommandsIffKey | main.ts:41-51 | commands are registered iff a key is stored; a retry is scheduled only after a failed refresh with a key |
| Plugin.RunCommand | main.ts:56-84 | every command sends exactly the request its `answer` or `ask` call builds (URL, bearer key, roles, temperature and model) and keeps that call's client update; the summary and key-point commands run `answer` on the whole note, with its edit and notices; the define command sends the selection, leaves the note alone and shows the answer as a notice after any notice from `ask`, even when the answer is empty |
| Plugin.ProfileFixedAtLoad | main.ts:56-84 | a command's prompt uses the profile instruction captured at start-up; later edits of the profile settings do not change the request |

## Findings

| source | as written | input that shows it | evidently intended | confidence | as-written member | corrected member |
|---|---|---|---|---|---|---|
| main.ts:116-118 | the column is taken from `getCursor()` (the selection head), but `replaceSelection` inserts at the selection start | note "abc\n" with a selection from offset 1 to offset 4 (the head at line 2, column 0): no blank line is added and the note becomes "a> [!ai-summary]- …" | the callout marker always begins a line | medium; not executed; relies on `getCursor()` returning the head | Callout.AsWrittenMisplacesCallout | Callout.CreateCalloutStartsLine |

`GroqClient.Answer` models `createCallout` as written. The corrected
`Callout.CreateCallout` takes the column at the selection start. The two
agree whenever the head is the selection start
(`Callout.AsWrittenAgreesWhenHeadIsStart`,
`GroqClient.AnswerCorrectWhenHeadIsStart`).

## Left out

- HTTP transport (`requestUrl`), the `Content-Type` header and `JSON.parse` are external. The provider's reply is an input datatype. If the host's request function throws on a 4xx status, that reply is `NetworkFailure` and gets the generic notice instead of the status notice. That host behaviour is not visible in the plugin code.
- `console.log` output is not modelled. Notices are modelled as strings in the outcomes.
- UI is not modelled: `MainSettingTab`, `KeylessSettingTab`, the dialog rendering, `Groq.show`, `openSettings`, `setStatusBar` and the temperature slider limits are widgets with no decision logic.
- The five-minute `setInterval` retry is only a flag in `Plugin.Onload`. Each retry is one more `ModelRegistry.Refresh`.
- The dialog's `plugin.unload()`/`plugin.load()` is only a flag in `ModelRegistry.SubmitKey`.
- `onunload` is empty, and async scheduling is not modelled.
- Temperature is an exact `real` that is only passed through. Floating point, and NaN as a falsy value, are not modelled.
- GroqClient.Ask: a `content` that is not a string (for example `null`) is not modelled. Such a value would reach the caller unchanged.
- ModelRegistry.Refresh: `data` elements are either objects with a string `id` or `null`. Other shapes, such as a string `data`, are covered by `NoData` only when iterating them throws.
- ModelCatalog.FirstKey: JavaScript lists integer-like keys (such as "42") first, in numeric order. The special key `__proto__` ignores string assignment. The model keeps plain insertion order, because provider model ids are not of either kind.
- ModelRegistry.SubmitKey: the 20-character minimum counts Unicode characters. JavaScript's `length` counts UTF-16 code units, so the two differ only for keys with characters outside the Basic Multilingual Plane.
- Callout.CalloutRoundTrip: the parser is the inverse of the template, not a Markdown reader. `createCallout` quotes only the first line of the answer with `> `. An answer that contains a blank line therefore ends the callout at that blank line when the note is rendered, and the rest appears as ordinary text. The model does not state how the note renders.
