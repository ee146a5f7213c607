/** The completion client (`Groq` in groq.ts): the request it builds from
    the settings, the way it sorts the provider's reply into an answer or
    the empty failure marker plus a notice, and `answer`, which writes a
    non-empty answer into the note as a callout. The reply is an input. */
module GroqClient {
  import opened JsValues
  import opened PluginSettings
  import opened Callout

  const ChatUrl: string := "https://api.groq.com/openai/v1/chat/completions"

  /** The token the prompt asks the model to answer with when it has no
      answer. */
  const ErrorToken: string := "ERROR"

  const DefaultCalloutKind: string := "ai-summary"
  const CalloutTitle: string := "AI Summary"

  const GenericNotice: string := "Error in asking the AI model"
  const NoAnswerNotice: string := "No answer was found"

  /** The notice for a reply whose status is not 200. */
  function StatusNotice(status: nat): string {
    "Error in asking Groq (" + NatToString(status) + ")"
  }

  /** A `Groq` instance: its fixed profile instruction and what its last
      `updateSettings` copied out of the settings. */
  datatype Client = Client(systemMessage: string, aiModel: Option<string>, cachedTemperature: real, authorization: string)

  /** `updateSettings()`: copy the model, the temperature and the bearer
      header from the current settings. */
  function UpdateSettings(c: Client, s: Settings): (r: Client)
    ensures r.systemMessage == c.systemMessage
    ensures r.aiModel == s.llmModel && r.cachedTemperature == s.temperature
    ensures r.authorization == "Bearer " + s.groqKey
  {
    Client(c.systemMessage, s.llmModel, s.temperature, "Bearer " + s.groqKey)
  }

  /** The cache holds only what the latest `updateSettings` read: an
      earlier refresh leaves no trace, and the profile is never touched. */
  lemma UpdateSettingsKeepsLatest(c: Client, s1: Settings, s2: Settings)
    ensures UpdateSettings(UpdateSettings(c, s1), s2) == UpdateSettings(c, s2)
  {
  }

  /** `new Groq(plugin, systemMessage)`. */
  function NewClient(s: Settings, systemMessage: string): (r: Client)
    ensures r.systemMessage == systemMessage
    ensures r.cachedTemperature == s.temperature && r.aiModel == s.llmModel
  {
    UpdateSettings(Client(systemMessage, None, 0.0, ""), s)
  }

  datatype Role = System | User
  datatype Message = Message(role: Role, content: string)

  /** The JSON body of a chat-completion request. A `None` model is
      `undefined` and is dropped from the JSON text. */
  datatype Payload = Payload(messages: seq<Message>, temperature: real, model: Option<string>)

  datatype Request = Request(url: string, authorization: string, body: Payload)

  /** The body of a reply, once `JSON.parse(...).choices[0].message.content`
      has been tried on it: the expression threw, or it gave a string. */
  datatype ChatBody = Malformed | Content(content: string)

  /** The provider's reply: the request threw before any status arrived,
      or a status and a body came back. */
  datatype ChatReply = NetworkFailure | Response(status: nat, body: ChatBody)

  /** How a reply is classified before it is collapsed to a string. */
  datatype Verdict = Answered(text: string) | NoAnswer | StatusError(status: nat) | ParseError | TransportError

  function Classify(reply: ChatReply): Verdict {
    match reply
    case NetworkFailure => TransportError
    case Response(status, body) =>
      if status != 200 then StatusError(status)
      else match body
        case Malformed => ParseError
        case Content(x) => if x == ErrorToken then NoAnswer else Answered(x)
  }

  /** The string `ask` resolves to for a verdict: the answer, or `""`. */
  function Collapse(v: Verdict): string {
    if v.Answered? then v.text else ""
  }

  /** The notices `ask` shows for a verdict: a thrown string is shown as
      is, any other thrown value as the generic notice. */
  function NoticesFor(v: Verdict): seq<string> {
    match v
    case Answered(_) => []
    case NoAnswer => [NoAnswerNotice]
    case StatusError(status) => [StatusNotice(status)]
    case ParseError => [GenericNotice]
    case TransportError => [GenericNotice]
  }

  /** The indentation the template literal carries on each prompt line. */
  const Indent: string := "\t\t\t\t\t"

  const NoAnswerRule: string := "If you have no answer, only respond with 'ERROR'"
  const LanguageRuleTail: string := ". If you don't speak the language, respond with 'ERROR'"

  /** Where the parts of a seven-part text lie: the first at the start,
      the second and fourth after what precedes them, the last two at the
      end. */
  lemma PartsAt(a: string, b: string, c: string, d: string, e: string, f: string, g: string)
    ensures var x := a + b + c + d + e + f + g;
            var n := |a| + |b| + |c|;
            && x[..|a|] == a
            && x[|a|..|a| + |b|] == b
            && x[n..n + |d|] == d
            && x[|x| - |g| - |f|..|x| - |g|] == f
            && x[|x| - |g|..] == g
  {
    var x := a + b + c + d + e + f + g;
    var n := |a| + |b| + |c|;
    assert forall i :: 0 <= i < |b| ==> x[|a| + i] == b[i];
    assert forall i :: 0 <= i < |d| ==> x[n + i] == d[i];
  }

  /** The middle of a three-part text lies right after the first part. */
  lemma Middle(a: string, b: string, c: string)
    ensures (a + b + c)[|a|..|a| + |b|] == b
  {
    assert forall i :: 0 <= i < |b| ==> (a + b + c)[|a| + i] == b[i];
  }

  /** The system message: the profile instruction, the general
      instruction, the rule that asks for `'ERROR'` when there is no
      answer, and the answer language with its own `'ERROR'` rule. */
  function SystemContent(systemMessage: string, general: string, language: Option<string>): (r: string)
    ensures |r| >= 6 + |systemMessage| && r[6..6 + |systemMessage|] == systemMessage
    ensures var g := 13 + |systemMessage|;
            var n := g + |general| + 7;
            && |r| >= n + |NoAnswerRule|
            && r[g..g + |general|] == general
            && r[n..n + |NoAnswerRule|] == NoAnswerRule
    ensures var lang := Render(language);
            && |r| >= |lang| + |LanguageRuleTail|
            && r[|r| - |LanguageRuleTail| - |lang|..|r| - |LanguageRuleTail|] == lang
            && r[|r| - |LanguageRuleTail|..] == LanguageRuleTail
  {
    var lead := "\n" + Indent;
    var sep := "\n\n" + Indent;
    var ask := sep + "Strictly Anwser in ";
    var head := lead + systemMessage + sep;
    var r := head + general + sep + NoAnswerRule + ask + Render(language) + LanguageRuleTail;
    PartsAt(head, general, sep, NoAnswerRule, ask, Render(language), LanguageRuleTail);
    Middle(lead, systemMessage, sep);
    assert |lead| == 6 && |sep| == 7;
    assert r[6..6 + |systemMessage|] == head[6..6 + |systemMessage|];
    r
  }

  /** What one `ask` call yields: the client after its `updateSettings`,
      the request it sent, the string it resolves to, and its notices. */
  datatype AskOutcome = AskOutcome(client: Client, request: Request, answer: string, notices: seq<string>)

  /** `ask(input, temperature?)`. The temperature is chosen from the
      argument or the value cached by the previous `updateSettings`, and
      only then are the settings re-read for the model and the key. */
  function Ask(c: Client, s: Settings, input: string, temperature: Option<real>, reply: ChatReply): (r: AskOutcome)
    ensures r.client.systemMessage == c.systemMessage
    ensures r.client.cachedTemperature == s.temperature && r.client.aiModel == s.llmModel
    ensures r.request.url == ChatUrl && r.request.authorization == "Bearer " + s.groqKey
    ensures |r.request.body.messages| == 2
    ensures r.request.body.messages[0].role == System
    ensures r.request.body.messages[0].content == SystemContent(c.systemMessage, s.instructGeneral, s.language)
    ensures r.request.body.messages[1] == Message(User, input)
    ensures r.request.body.model == s.llmModel
    ensures temperature.Some? && temperature.value != 0.0 ==> r.request.body.temperature == temperature.value
    ensures temperature.None? || temperature.value == 0.0 ==> r.request.body.temperature == c.cachedTemperature
    ensures reply.NetworkFailure? ==> r.answer == "" && r.notices == [GenericNotice]
    ensures reply.Response? && reply.status != 200 ==> r.answer == "" && r.notices == [StatusNotice(reply.status)]
    ensures reply == Response(200, Malformed) ==> r.answer == "" && r.notices == [GenericNotice]
    ensures reply == Response(200, Content(ErrorToken)) ==> r.answer == "" && r.notices == [NoAnswerNotice]
    ensures reply.Response? && reply.status == 200 && reply.body.Content? && reply.body.content != ErrorToken ==>
              r.answer == reply.body.content && r.notices == []
  {
    var t := NumberOrElse(temperature, c.cachedTemperature);
    var c' := UpdateSettings(c, s);
    var system := Message(System, SystemContent(c'.systemMessage, s.instructGeneral, s.language));
    var body := Payload([system, Message(User, input)], t, c'.aiModel);
    var v := Classify(reply);
    AskOutcome(c', Request(ChatUrl, c'.authorization, body), Collapse(v), NoticesFor(v))
  }

  /** `ask` resolves to a non-empty string exactly when the reply has
      status 200 and content that is neither empty nor the error token;
      at most one notice is shown, and none with a non-empty answer. */
  lemma AskAnswersIff(c: Client, s: Settings, input: string, temperature: Option<real>, reply: ChatReply)
    ensures var r := Ask(c, s, input, temperature, reply);
            && (r.answer != "" <==>
                 reply.Response? && reply.status == 200 && reply.body.Content?
                 && reply.body.content != "" && reply.body.content != ErrorToken)
            && |r.notices| <= 1
            && (r.answer != "" ==> r.notices == [])
            && (r.notices == [] <==> Classify(reply).Answered?)
  {
  }

  /** The notice for a status names that status: distinct statuses give
      distinct notices. */
  lemma StatusNoticeInjective(a: nat, b: nat)
    requires StatusNotice(a) == StatusNotice(b)
    ensures a == b
  {
    var p := "Error in asking Groq (";
    var na := NatToString(a);
    var nb := NatToString(b);
    assert |na| == |nb|;
    assert StatusNotice(a)[|p|..|p| + |na|] == na;
    assert StatusNotice(b)[|p|..|p| + |nb|] == nb;
    NatToStringInjective(a, b);
  }

  /** The temperature cache lags one call behind the settings: a client
      built under `s0` asks with `s0`'s temperature even after the
      settings changed to `s1`, and the next call uses `s1`'s. An explicit
      non-zero temperature always wins. */
  lemma TemperatureReadBeforeRefresh(s0: Settings, s1: Settings, s2: Settings, msg: string, x: string, y: string,
                                     reply1: ChatReply, reply2: ChatReply, t: real)
    requires t != 0.0
    ensures var c := NewClient(s0, msg);
            var o1 := Ask(c, s1, x, None, reply1);
            var o2 := Ask(o1.client, s2, y, None, reply2);
            var o3 := Ask(o1.client, s2, y, Some(t), reply2);
            && o1.request.body.temperature == s0.temperature
            && o2.request.body.temperature == s1.temperature
            && o3.request.body.temperature == t
            && o1.request.body.model == s1.llmModel
            && o2.request.body.model == s2.llmModel
  {
  }

  /** What one `answer` call yields. */
  datatype AnswerOutcome = AnswerOutcome(client: Client, editor: Editor, request: Request, notices: seq<string>)

  /** `answer(editor, input?, callout?)`: an absent or empty input becomes
      the whole note, an absent or empty callout kind becomes
      "ai-summary"; `ask` is called once and the editor is touched only
      when it resolves to a non-empty string, through `createCallout` as
      written (its column taken at the cursor). */
  function Answer(c: Client, s: Settings, e: Editor, input: Option<string>, kind: Option<string>, reply: ChatReply): (r: AnswerOutcome)
    requires ValidSelection(e)
    ensures ValidSelection(r.editor)
    ensures |r.request.body.messages| == 2 && r.request.body.messages[1] == Message(User, OrElse(input, e.doc))
    ensures var o := Ask(c, s, OrElse(input, e.doc), None, reply);
            && r.client == o.client && r.request == o.request && r.notices == o.notices
            && (o.answer == "" ==> r.editor == e)
            && (o.answer != "" ==> r.editor == CreateCalloutAsWritten(e, OrElse(kind, DefaultCalloutKind), CalloutTitle, o.answer))
  {
    var calloutKind := OrElse(kind, DefaultCalloutKind);
    var text := OrElse(input, e.doc);
    var o := Ask(c, s, text, None, reply);
    var e' := if o.answer == "" then e else CreateCalloutAsWritten(e, calloutKind, CalloutTitle, o.answer);
    AnswerOutcome(o.client, e', o.request, o.notices)
  }

  /** A failed answer leaves the note exactly as it was. */
  lemma AnswerNoEditOnFailure(c: Client, s: Settings, e: Editor, input: Option<string>, kind: Option<string>, reply: ChatReply)
    requires ValidSelection(e)
    requires !(reply.Response? && reply.status == 200 && reply.body.Content? && reply.body.content != ErrorToken)
    ensures Answer(c, s, e, input, kind, reply).editor == e
  {
  }

  /** A good answer is inserted once, verbatim, under the default kind and
      the fixed title, in place of the selection; inverting the template
      on the inserted text gives back exactly that, with a leading blank line exactly when the
      cursor is not at a line start. */
  lemma AnswerInsertsCallout(c: Client, s: Settings, e: Editor, input: Option<string>, x: string)
    requires ValidSelection(e)
    requires x != "" && x != ErrorToken
    ensures var r := Answer(c, s, e, input, None, Response(200, Content(x)));
            var t := CalloutText(Column(e.doc, e.head), DefaultCalloutKind, CalloutTitle, x);
            && r.notices == []
            && r.editor.doc == e.doc[..From(e)] + t + e.doc[To(e)..]
            && ParseCallout(t) == Some(Parsed(!StartsLine(e.doc, e.head), DefaultCalloutKind, CalloutTitle, x))
  {
    CalloutRoundTrip(Column(e.doc, e.head), DefaultCalloutKind, CalloutTitle, x);
  }

  /** When the cursor is the start of the selection (no selection, or one
      made backwards), `answer` performs the corrected insertion, whose
      callout begins a line (`CreateCalloutStartsLine`). */
  lemma AnswerCorrectWhenHeadIsStart(c: Client, s: Settings, e: Editor, input: Option<string>, x: string)
    requires ValidSelection(e) && e.head <= e.anchor
    requires x != "" && x != ErrorToken
    ensures Answer(c, s, e, input, None, Response(200, Content(x))).editor
         == CreateCallout(e, DefaultCalloutKind, CalloutTitle, x)
  {
    AsWrittenAgreesWhenHeadIsStart(e, DefaultCalloutKind, CalloutTitle, x);
  }

  /** With the cursor at a line start and nothing selected, a good answer
      is inserted as the bare block at the cursor. */
  lemma AnswerAtLineStart(c: Client, s: Settings, doc: string, p: nat, input: Option<string>, x: string)
    requires p <= |doc| && StartsLine(doc, p)
    requires x != "" && x != ErrorToken
    ensures Answer(c, s, Editor(doc, p, p), input, None, Response(200, Content(x))).editor.doc
         == doc[..p] + Block(DefaultCalloutKind, CalloutTitle, x) + doc[p..]
  {
    assert Column(doc, p) == 0;
  }

  /** The scenario of a summary request at the start of a line: the
      provider's sentence appears as the quoted line of an "ai-summary"
      callout inserted at the cursor. */
  lemma SummaryScenario(c: Client, s: Settings, doc: string, p: nat)
    requires c.systemMessage == "Summarize; If you have no answer, respond with 'ERROR'"
    requires p <= |doc| && StartsLine(doc, p)
    ensures var r := Answer(c, s, Editor(doc, p, p), Some("The sky is blue."),
                            None, Response(200, Content("The sky's color is blue.")));
            && r.request.body.messages[0].content
               == SystemContent("Summarize; If you have no answer, respond with 'ERROR'", s.instructGeneral, s.language)
            && r.request.body.messages[1].content == "The sky is blue."
            && r.editor.doc == doc[..p] + "> [!ai-summary]- AI Summary\n> The sky's color is blue.\n\n" + doc[p..]
  {
    AnswerAtLineStart(c, s, doc, p, Some("The sky is blue."), "The sky's color is blue.");
    SummaryBlockText();
  }

  lemma SummaryBlockText()
    ensures Block(DefaultCalloutKind, CalloutTitle, "The sky's color is blue.")
         == "> [!ai-summary]- AI Summary\n> The sky's color is blue.\n\n"
  {
    SummaryHeader();
    var h := "> [!ai-summary]- AI Summary\n> ";
    var t := "The sky's color is blue.";
    var x := "> [!ai-summary]- AI Summary\n> The sky's color is blue.\n\n";
    assert |h + t + "\n\n"| == |x|;
    assert forall i :: 0 <= i < |h| ==> (h + t + "\n\n")[i] == x[i];
    assert forall i :: |h| <= i < |x| ==> (h + t + "\n\n")[i] == x[i];
  }

  lemma SummaryHeader()
    ensures "> [!" + DefaultCalloutKind + "]- " + CalloutTitle + "\n> " == "> [!ai-summary]- AI Summary\n> "
  {
    assert "> [!" + "ai-summary" + "]- " == "> [!ai-summary]- ";
  }

  /** The scenario of a rejected request: status 401 gives the empty
      string, one notice naming the status, and no edit. */
  lemma UnauthorizedScenario(c: Client, s: Settings, e: Editor, input: Option<string>, body: ChatBody)
    requires ValidSelection(e)
    ensures var r := Answer(c, s, e, input, None, Response(401, body));
            && r.editor == e
            && r.notices == ["Error in asking Groq (401)"]
  {
    assert NatToString(401) == "401" by {
      assert DigitChar(4) == '4' && DigitChar(0) == '0' && DigitChar(1) == '1';
      assert NatToString(4) == "4";
      assert NatToString(40) == "4" + "0";
      assert NatToString(401) == "40" + "1";
    }
    assert StatusNotice(401) == "Error in asking Groq (401)";
  }
}
