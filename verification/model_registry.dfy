/** Model discovery (`updateAvalibaleModels` in settings.ts) and the key
    acceptance step of the API-key dialog (`ApiKeyModal`'s Submit button).
    The provider's reply to the list-models request is an input. */
module ModelRegistry {
  import opened JsValues
  import opened PluginSettings
  import opened ModelCatalog

  const ModelsUrl: string := "https://api.groq.com/openai/v1/models"

  /** The model chosen when none is configured, if the provider offers it. */
  const PreferredModel: string := "llama3-8b-8192"

  /** Keys shorter than this are refused by the dialog without a request. */
  const MinKeyLength: nat := 20

  /** One element of the reply's `data` array: an object with an `id`, or
      a value (`null`) whose `.id` access throws. */
  datatype ModelEntry = Entry(id: string) | NullEntry

  /** The reply body once it reached the plugin: not JSON, JSON whose
      `data` cannot be iterated, or the list of entries. */
  datatype ModelsBody = Unparsable | NoData | Listed(entries: seq<ModelEntry>)

  /** The outcome of the list-models request: the request itself threw
      (network failure, or a status the host turns into an error), or a
      body was received. */
  datatype ModelsReply = RequestFailed | Received(body: ModelsBody)

  /** The list-models request: its URL and its `Authorization` header. */
  datatype ModelsRequest = ModelsRequest(url: string, authorization: string)

  /** The result of one refresh: the boolean it returns, the settings and
      catalog afterwards, and the request it sent, if it sent one. */
  datatype RefreshOutcome = RefreshOutcome(ok: bool, settings: Settings, catalog: Catalog, request: Option<ModelsRequest>)

  /** Every entry is an object with an id, so the loop runs to the end. */
  predicate Complete(entries: seq<ModelEntry>) {
    forall i :: 0 <= i < |entries| ==> entries[i].Entry?
  }

  /** The ids the loop stores before the first entry that throws. */
  function LeadingIds(entries: seq<ModelEntry>): (ids: seq<string>)
    ensures |ids| <= |entries|
    ensures forall i :: 0 <= i < |ids| ==> entries[i] == Entry(ids[i])
    ensures Complete(entries) ==> |ids| == |entries|
    ensures |ids| < |entries| ==> entries[|ids|].NullEntry?
  {
    if |entries| == 0 then []
    else match entries[0]
      case NullEntry => []
      case Entry(id) =>
        assert Complete(entries) ==> Complete(entries[1..]);
        [id] + LeadingIds(entries[1..])
  }

  /** `ai_models["llama3-8b-8192"] || Object.keys(ai_models)[0]`. */
  function DefaultModel(c: Catalog): (r: Option<string>)
    requires Valid(c)
    ensures r.None? <==> c.names == map[]
    ensures r.Some? ==> r.value in c.names
  {
    var preferred := Get(c, PreferredModel);
    if preferred.Some? && preferred.value != "" then preferred else FirstKey(c)
  }

  /** On a valid catalog the default is the preferred model when the
      catalog holds it, otherwise the first key ever added, and `undefined`
      only for the empty catalog. */
  lemma DefaultModelChoice(c: Catalog)
    requires Valid(c)
    ensures PreferredModel in c.names ==> DefaultModel(c) == Some(PreferredModel)
    ensures PreferredModel !in c.names && c.order != [] ==> DefaultModel(c) == Some(c.order[0])
  {
  }

  /** `updateAvalibaleModels(plugin, key?)`. The key argument, when truthy,
      wins over the stored key; with no key at all nothing is requested.
      Ids are upserted one by one, so an entry that throws leaves the ids
      before it in the catalog. A model is selected only when the settings
      hold the empty model. */
  function Refresh(s: Settings, c: Catalog, key: Option<string>, reply: ModelsReply): (r: RefreshOutcome)
    requires Valid(c)
    ensures Valid(r.catalog)
    ensures OrElse(key, s.groqKey) == "" ==> r == RefreshOutcome(false, s, c, None)
    ensures OrElse(key, s.groqKey) != "" ==> r.request == Some(ModelsRequest(ModelsUrl, "Bearer " + OrElse(key, s.groqKey)))
    ensures key.Some? && key.value != "" ==> r.request == Some(ModelsRequest(ModelsUrl, "Bearer " + key.value))
    ensures r.ok <==> OrElse(key, s.groqKey) != "" && reply.Received? && reply.body.Listed? && Complete(reply.body.entries)
    ensures !(reply.Received? && reply.body.Listed?) ==> r.catalog == c
    ensures OrElse(key, s.groqKey) != "" && reply.Received? && reply.body.Listed? ==>
              r.catalog == PutAll(c, LeadingIds(reply.body.entries))
    ensures r.ok ==> forall i :: 0 <= i < |reply.body.entries| ==>
              reply.body.entries[i].id in r.catalog.names &&
              r.catalog.names[reply.body.entries[i].id] == reply.body.entries[i].id
    ensures c.names.Keys <= r.catalog.names.Keys
    ensures |c.order| <= |r.catalog.order| && r.catalog.order[..|c.order|] == c.order
    ensures r.settings == s.(llmModel := r.settings.llmModel)
    ensures s.llmModel != Some("") || !r.ok ==> r.settings.llmModel == s.llmModel
    ensures r.ok && s.llmModel == Some("") ==> r.settings.llmModel == DefaultModel(r.catalog)
  {
    var k := OrElse(key, s.groqKey);
    if k == "" then RefreshOutcome(false, s, c, None)
    else
      var auth := Some(ModelsRequest(ModelsUrl, "Bearer " + k));
      match reply
      case RequestFailed => RefreshOutcome(false, s, c, auth)
      case Received(Unparsable) => RefreshOutcome(false, s, c, auth)
      case Received(NoData) => RefreshOutcome(false, s, c, auth)
      case Received(Listed(entries)) =>
        var ids := LeadingIds(entries);
        var c' := PutAll(c, ids);
        PutAllKeepsAndAdds(c, ids);
        if |ids| < |entries| then RefreshOutcome(false, s, c', auth)
        else
          var s' := if s.llmModel == Some("") then s.(llmModel := DefaultModel(c')) else s;
          RefreshOutcome(true, s', c', auth)
  }

  /** Refreshing again with the same key and the same reply changes
      nothing more: the upsert is idempotent and the selection is stable. */
  lemma RefreshIdempotent(s: Settings, c: Catalog, key: Option<string>, reply: ModelsReply)
    requires Valid(c)
    ensures var r := Refresh(s, c, key, reply);
            Refresh(r.settings, r.catalog, key, reply) == r
  {
    var r := Refresh(s, c, key, reply);
    if OrElse(key, s.groqKey) != "" && reply.Received? && reply.body.Listed? {
      var ids := LeadingIds(reply.body.entries);
      PutAllIdempotent(c, ids);
    }
  }

  /** A reply listing only objects with ids, under a usable key, makes
      the refresh succeed with exactly those ids upserted. */
  lemma RefreshListedSucceeds(s: Settings, c: Catalog, key: Option<string>, entries: seq<ModelEntry>)
    requires Valid(c)
    requires OrElse(key, s.groqKey) != ""
    requires Complete(entries)
    ensures var r := Refresh(s, c, key, Received(Listed(entries)));
            && r.ok
            && r.catalog == PutAll(c, LeadingIds(entries))
            && r.settings.groqKey == s.groqKey
  {
    assert |LeadingIds(entries)| == |entries|;
  }

  /** The default over a catalog filled from nothing by one upsert. */
  lemma DefaultAfterFirstUpsert(ids: seq<string>)
    requires |ids| > 0
    ensures DefaultModel(PutAll(Empty, ids)) == Some(if PreferredModel in ids then PreferredModel else ids[0])
  {
    PutAllFromEmpty(ids);
    DefaultModelChoice(PutAll(Empty, ids));
  }

  /** On a fresh catalog, a successful refresh with no model configured
      selects the preferred model if the reply lists it, and otherwise the
      first id the reply lists. */
  lemma RefreshSelectsFirstListed(s: Settings, key: Option<string>, es: seq<ModelEntry>)
    requires OrElse(key, s.groqKey) != "" && s.llmModel == Some("")
    requires Complete(es) && |es| > 0
    ensures var r := Refresh(s, Empty, key, Received(Listed(es)));
            && r.ok
            && ((exists i :: 0 <= i < |es| && es[i].id == PreferredModel) ==> r.settings.llmModel == Some(PreferredModel))
            && ((forall i :: 0 <= i < |es| ==> es[i].id != PreferredModel) ==> r.settings.llmModel == Some(es[0].id))
  {
    var ids := LeadingIds(es);
    RefreshListedSucceeds(s, Empty, key, es);
    DefaultAfterFirstUpsert(ids);
    assert PreferredModel in ids <==> exists i :: 0 <= i < |es| && es[i].id == PreferredModel by {
      assert forall i :: 0 <= i < |ids| ==> ids[i] == es[i].id;
    }
  }

  /** Two successful refreshes leave the catalog holding the union of the
      old ids and both lists, in the order a single upsert of the two
      lists one after the other would give. */
  lemma RefreshUnion(s: Settings, c: Catalog, key: Option<string>, a: seq<ModelEntry>, b: seq<ModelEntry>)
    requires Valid(c)
    requires OrElse(key, s.groqKey) != ""
    requires Complete(a) && Complete(b)
    ensures var r1 := Refresh(s, c, key, Received(Listed(a)));
            var r2 := Refresh(r1.settings, r1.catalog, key, Received(Listed(b)));
            && r1.ok && r2.ok
            && r2.catalog == PutAll(c, LeadingIds(a) + LeadingIds(b))
            && (forall k :: k in r2.catalog.names <==> k in c.names || k in LeadingIds(a) || k in LeadingIds(b))
  {
    var ia, ib := LeadingIds(a), LeadingIds(b);
    var r1 := Refresh(s, c, key, Received(Listed(a)));
    RefreshListedSucceeds(s, c, key, a);
    var r2 := Refresh(r1.settings, r1.catalog, key, Received(Listed(b)));
    RefreshListedSucceeds(r1.settings, r1.catalog, key, b);
    PutAllAppend(c, ia, ib);
    assert r2.catalog == PutAll(c, ia + ib);
    assert forall k :: k in ia + ib <==> k in ia || k in ib;
  }

  /** A refresh that fails keeps the selected model; the catalog may have
      grown by the ids read before the failure, but nothing is lost. */
  lemma RefreshFailureKeepsSelection(s: Settings, c: Catalog, key: Option<string>, reply: ModelsReply)
    requires Valid(c)
    ensures var r := Refresh(s, c, key, reply);
            !r.ok ==> r.settings == s && c.names.Keys <= r.catalog.names.Keys
  {
  }

  /** The result of pressing Submit in the API-key dialog: settings and
      catalog afterwards, the notice shown, whether a list-models request
      was sent, and whether the plugin is reloaded. */
  datatype SubmitOutcome = SubmitOutcome(settings: Settings, catalog: Catalog, notice: string, requested: bool, reloaded: bool)

  /** Submit with the typed key: a key shorter than 20 characters is
      refused before any request; otherwise the models are refreshed with
      that key, and only a successful refresh stores it and reloads. */
  function SubmitKey(s: Settings, c: Catalog, typed: string, reply: ModelsReply): (r: SubmitOutcome)
    requires Valid(c)
    ensures Valid(r.catalog)
    ensures |typed| < MinKeyLength ==> r == SubmitOutcome(s, c, "Invalid API Key", false, false)
    ensures |typed| >= MinKeyLength ==> r.requested
    ensures r.settings.groqKey == (if r.reloaded then typed else s.groqKey)
    ensures r.reloaded <==> |typed| >= MinKeyLength && Refresh(s, c, Some(typed), reply).ok
    ensures r.reloaded ==> r.notice == "Reloading Plugin"
    ensures |typed| >= MinKeyLength && !r.reloaded ==> r.notice == "Unauthorized API Key" && r.settings == s
    ensures |typed| >= MinKeyLength ==>
              var o := Refresh(s, c, Some(typed), reply);
              r.catalog == o.catalog && r.settings == (if o.ok then o.settings.(groqKey := typed) else s)
  {
    if typed == "" || |typed| < MinKeyLength then
      SubmitOutcome(s, c, "Invalid API Key", false, false)
    else
      var o := Refresh(s, c, Some(typed), reply);
      if !o.ok then SubmitOutcome(o.settings, o.catalog, "Unauthorized API Key", true, false)
      else SubmitOutcome(o.settings.(groqKey := typed), o.catalog, "Reloading Plugin", true, true)
  }

  /** The stored key changes only to the typed key, and only when that key
      is long enough and the provider accepted it. */
  lemma KeyStoredOnlyAfterSuccess(s: Settings, c: Catalog, typed: string, reply: ModelsReply)
    requires Valid(c)
    ensures var r := SubmitKey(s, c, typed, reply);
            r.settings.groqKey != s.groqKey ==>
              && r.settings.groqKey == typed
              && |typed| >= MinKeyLength
              && Refresh(s, c, Some(typed), reply).ok
  {
  }

  /** A long enough key under which the provider lists its models is
      accepted: the listed ids are upserted, the key is stored and the
      plugin reloads. */
  lemma SubmitAcceptsListedKey(s: Settings, c: Catalog, typed: string, es: seq<ModelEntry>)
    requires Valid(c)
    requires |typed| >= MinKeyLength && Complete(es)
    ensures var r := SubmitKey(s, c, typed, Received(Listed(es)));
            && r.reloaded && r.requested
            && r.settings.groqKey == typed
            && r.catalog == PutAll(c, LeadingIds(es))
  {
    RefreshListedSucceeds(s, c, Some(typed), es);
  }
}
