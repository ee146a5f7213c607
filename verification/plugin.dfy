/** Plugin start-up (`onload` in main.ts) and the commands it registers.
    The stored settings and the provider's replies are inputs; what the
    host is asked to register is returned as a list. */
module Plugin {
  import opened JsValues
  import opened PluginSettings
  import opened ModelCatalog
  import opened ModelRegistry
  import opened GroqClient
  import opened Callout

  const FetchFailedNotice: string := "Error in fetching avaliable models"

  /** What a command does when run: insert the answer as a callout, or
      show the answer for the selection as a notice. Each holds its own
      client, built once at start-up. */
  datatype Action = InsertAnswer(client: Client) | NotifyAnswer(client: Client)

  datatype Registration =
    | KeylessTab
    | MainTab
    | StatusBar
    | Command(id: string, name: string, action: Action)

  /** The state after `onload`: settings, catalog, what was registered,
      the notices shown, and whether the periodic model refresh was set up. */
  datatype LoadOutcome = LoadOutcome(
    settings: Settings,
    catalog: Catalog,
    registrations: seq<Registration>,
    notices: seq<string>,
    retryScheduled: bool)

  function Commands(s: Settings): seq<Registration> {
    [ Command("create-summary", "Create Summary", InsertAnswer(NewClient(s, s.instructSummary))),
      Command("create-keypoints", "Create Key Points", InsertAnswer(NewClient(s, s.instructKeypoint))),
      Command("define-text", "Define Text", NotifyAnswer(NewClient(s, s.instructDefine))) ]
  }

  /** `onload()`: load the settings; without a key register only the
      keyless settings tab; with a key refresh the models (a failure shows
      a notice and schedules the periodic retry), then register the status
      bar, the three commands and the main settings tab either way. */
  function Onload(data: Option<Stored>, c: Catalog, reply: ModelsReply): (r: LoadOutcome)
    requires Valid(c)
    ensures Valid(r.catalog)
    ensures Load(data).groqKey == "" ==> r == LoadOutcome(Load(data), c, [KeylessTab], [], false)
    ensures Load(data).groqKey != "" ==>
              var o := Refresh(Load(data), c, None, reply);
              && r.settings == o.settings && r.catalog == o.catalog
              && r.retryScheduled == !o.ok
              && r.notices == (if o.ok then [] else [FetchFailedNotice])
              && |r.registrations| == 5
              && r.registrations[0] == StatusBar && r.registrations[4] == MainTab
              && r.registrations[1] == Command("create-summary", "Create Summary",
                                               InsertAnswer(NewClient(o.settings, o.settings.instructSummary)))
              && r.registrations[2] == Command("create-keypoints", "Create Key Points",
                                               InsertAnswer(NewClient(o.settings, o.settings.instructKeypoint)))
              && r.registrations[3] == Command("define-text", "Define Text",
                                               NotifyAnswer(NewClient(o.settings, o.settings.instructDefine)))
  {
    var s := Load(data);
    if s.groqKey == "" then LoadOutcome(s, c, [KeylessTab], [], false)
    else
      var o := Refresh(s, c, None, reply);
      var notices := if o.ok then [] else [FetchFailedNotice];
      var cmds := Commands(o.settings);
      var regs := [StatusBar] + cmds + [MainTab];
      assert regs[1] == cmds[0] && regs[2] == cmds[1] && regs[3] == cmds[2];
      LoadOutcome(o.settings, o.catalog, regs, notices, !o.ok)
  }

  /** Without a stored key nothing is requested and no command exists;
      with one, the commands are there whether or not the refresh worked,
      and the retry is scheduled exactly when it did not. */
  lemma OnloadCommandsIffKey(data: Option<Stored>, c: Catalog, reply: ModelsReply)
    requires Valid(c)
    ensures var r := Onload(data, c, reply);
            && ((exists i :: 0 <= i < |r.registrations| && r.registrations[i].Command?) <==> Load(data).groqKey != "")
            && (r.retryScheduled ==> Load(data).groqKey != "" && !Refresh(Load(data), c, None, reply).ok)
            && (Load(data).groqKey == "" ==> r.catalog == c && r.settings == Load(data))
  {
    var r := Onload(data, c, reply);
    if Load(data).groqKey != "" {
      assert r.registrations[1].Command?;
    }
  }

  /** The selected text, `editor.getSelection()`. */
  function Selection(e: Editor): (t: string)
    requires ValidSelection(e)
    ensures |t| == To(e) - From(e)
  {
    e.doc[From(e)..To(e)]
  }

  /** What running a command yields: its action with the client's cache
      updated, the editor afterwards, the request and the notices. */
  datatype CommandOutcome = CommandOutcome(action: Action, editor: Editor, request: Request, notices: seq<string>)

  /** Runs a registered command's callback. The two answer commands call
      `answer(editor)` with no input, so the whole note is sent; the
      define command asks about the selection and shows the result as a
      notice, even when it is empty. */
  function RunCommand(a: Action, s: Settings, e: Editor, reply: ChatReply): (r: CommandOutcome)
    requires ValidSelection(e)
    ensures ValidSelection(r.editor)
    ensures r.action.InsertAnswer? == a.InsertAnswer?
    ensures r.action.client.systemMessage == a.client.systemMessage
    ensures |r.request.body.messages| == 2
    ensures r.request.body.messages[0].content == SystemContent(a.client.systemMessage, s.instructGeneral, s.language)
    ensures r.request.body.model == s.llmModel
    ensures a.InsertAnswer? ==> r.request.body.messages[1].content == e.doc
    ensures a.NotifyAnswer? ==> r.request.body.messages[1].content == Selection(e) && r.editor == e
    ensures a.InsertAnswer? ==>
              var o := Answer(a.client, s, e, None, None, reply);
              r.editor == o.editor && r.notices == o.notices && r.action == InsertAnswer(o.client)
              && r.request == o.request
    ensures a.NotifyAnswer? ==>
              var o := Ask(a.client, s, Selection(e), None, reply);
              r.notices == o.notices + [o.answer] && r.action == NotifyAnswer(o.client)
              && r.request == o.request
  {
    match a
    case InsertAnswer(cl) =>
      var o := Answer(cl, s, e, None, None, reply);
      CommandOutcome(InsertAnswer(o.client), o.editor, o.request, o.notices)
    case NotifyAnswer(cl) =>
      var o := Ask(cl, s, Selection(e), None, reply);
      CommandOutcome(NotifyAnswer(o.client), e, o.request, o.notices + [o.answer])
  }

  /** A command's profile instruction is the one its client captured at
      start-up: two settings records that differ only in the profile
      instructions or the temperature send the same prompt, model and key. */
  lemma ProfileFixedAtLoad(a: Action, s1: Settings, s2: Settings, e: Editor, reply: ChatReply)
    requires ValidSelection(e)
    requires s1.groqKey == s2.groqKey && s1.llmModel == s2.llmModel
    requires s1.instructGeneral == s2.instructGeneral && s1.language == s2.language
    ensures RunCommand(a, s1, e, reply).request == RunCommand(a, s2, e, reply).request
  {
    var r1 := RunCommand(a, s1, e, reply);
    var r2 := RunCommand(a, s2, e, reply);
    assert r1.request.body.messages == r2.request.body.messages;
  }
}
