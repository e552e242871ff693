/** The backend (backend/server.js): it turns a reading request into a call of the language
    model service, shapes the reply, and reports failures in one envelope.

    The HTTP exchange is a parameter: `respond` is the service's answer to the request the
    backend posts, either a response (status, status text, parsed body) or no response at all. */
module Server {
  import opened Wrappers
  import opened Js
  import opened Chat
  import opened Psychic
  import opened Spread

  // =========================================================================================
  // Configuration

  const DefaultModel: string := "tinyllama"
  const DefaultBaseUrl: string := "http://192.168.1.10:11434"

  /** `process.env.OPENAI_MODEL || 'tinyllama'` */
  function ConfiguredModel(env: Option<string>): (model: string)
    ensures model != ""
    ensures env.Some? && env.value != "" ==> model == env.value
    ensures env.None? || env.value == "" ==> model == DefaultModel
  {
    if env.Some? && env.value != "" then env.value else DefaultModel
  }

  /** `url.replace(/\/$/, '')`: one slash at the very end is removed, and only one. */
  function StripTrailingSlash(url: string): (r: string)
    ensures url != [] && url[|url| - 1] == '/' ==> r + "/" == url
    ensures url == [] || url[|url| - 1] != '/' ==> r == url
  {
    if url != [] && url[|url| - 1] == '/' then url[..|url| - 1] else url
  }

  /** `(process.env.OPENAI_BASE_URL || default).replace(/\/$/, '')` */
  function ConfiguredBaseUrl(env: Option<string>): (base: string)
    ensures env.None? || env.value == "" ==> base == DefaultBaseUrl
    ensures env.Some? && env.value != "" ==> base == StripTrailingSlash(env.value)
  {
    StripTrailingSlash(if env.Some? && env.value != "" then env.value else DefaultBaseUrl)
  }

  lemma StripRemovesOneSlash(url: string)
    ensures StripTrailingSlash(url + "//") == url + "/"
  {
  }

  // =========================================================================================
  // messagesToPrompt

  /** `m?.role || 'user'` */
  function RoleOf(m: JsValue): JsValue {
    Or(Get(m, "role"), Str("user"))
  }

  /** `(m?.role || 'user').toUpperCase()`: a truthy role that is not a string has no
      toUpperCase and throws. */
  function RoleLabel(rt: Runtime, m: JsValue): (r: Result<string, Thrown>)
    ensures r.Failure? <==> Truthy(Get(m, "role")) && !Get(m, "role").Str?
    ensures !Truthy(Get(m, "role")) ==> r == Success("USER")
    ensures Truthy(Get(m, "role")) && Get(m, "role").Str? ==>
              r == Success(ToUpperCase(rt, Get(m, "role").s))
  {
    var role := RoleOf(m);
    UpperCaseOfUser(rt);
    if role.Str? then Success(ToUpperCase(rt, role.s)) else Failure(TypeError("toUpperCase"))
  }

  lemma UpperCaseOfUser(rt: Runtime)
    ensures ToUpperCase(rt, "user") == "USER"
  {
    UpperCaseAscii(rt, "user");
    assert AsciiUpper('u') == 'U' && AsciiUpper('s') == 'S' && AsciiUpper('e') == 'E' && AsciiUpper('r') == 'R';
  }

  /** `typeof m?.content === 'string' ? m.content : JSON.stringify(m?.content ?? '')`:
      string content verbatim, missing content as the two characters `""`. */
  function ContentText(rt: Runtime, m: JsValue): (r: string)
    ensures Get(m, "content").Str? ==> r == Get(m, "content").s
    ensures Nullish(Get(m, "content")) ==> r == "\"\""
    ensures !Get(m, "content").Str? && !Nullish(Get(m, "content")) ==> r == Stringify(rt, Get(m, "content"))
  {
    var content := Get(m, "content");
    if content.Str? then content.s else Stringify(rt, Coalesce(content, Str("")))
  }

  /** `${role}: ${content}` for one message. */
  function PromptLine(rt: Runtime, m: JsValue): Result<string, Thrown> {
    match RoleLabel(rt, m)
    case Success(role) => Success(role + ": " + ContentText(rt, m))
    case Failure(e) => Failure(e)
  }

  /** The lines of the messages, in order; the first message whose role throws stops the map. */
  function PromptLines(rt: Runtime, ms: seq<JsValue>): (r: Result<seq<string>, Thrown>)
    ensures r.Failure? <==> exists i :: 0 <= i < |ms| && PromptLine(rt, ms[i]).Failure?
    ensures r.Success? ==> |r.value| == |ms|
    ensures r.Success? ==> forall i :: 0 <= i < |ms| ==> PromptLine(rt, ms[i]) == Success(r.value[i])
  {
    if ms == [] then Success([])
    else
      match PromptLine(rt, ms[0])
      case Failure(e) => Failure(e)
      case Success(line) =>
        match PromptLines(rt, ms[1..])
        case Failure(e) =>
          ghost var i :| 0 <= i < |ms[1..]| && PromptLine(rt, ms[1..][i]).Failure?;
          assert PromptLine(rt, ms[i + 1]).Failure?;
          Failure(e)
        case Success(rest) =>
          assert forall i :: 1 <= i < |ms| ==> ms[i] == ms[1..][i - 1];
          Success([line] + rest)
  }

  const AssistantCue: string := "\nASSISTANT:"

  predicate EndsWith(s: string, suffix: string) {
    |suffix| <= |s| && s[|s| - |suffix|..] == suffix
  }

  /** `messagesToPrompt(messages)`: a non-array becomes `String(messages || '')`; an array
      becomes its lines joined by newlines, followed by the assistant cue. */
  function MessagesToPrompt(rt: Runtime, messages: JsValue): (r: Result<string, Thrown>)
    ensures !messages.Arr? ==> (r.Failure? <==> HasOwnToString(messages))
    ensures !Truthy(messages) ==> r == Success("")
    ensures messages.Str? ==> r == Success(messages.s)
    ensures messages.Arr? ==> (r.Failure? <==> exists i :: 0 <= i < |messages.items| &&
                                                 RoleLabel(rt, messages.items[i]).Failure?)
    ensures messages.Arr? && r.Success? ==> EndsWith(r.value, AssistantCue)
  {
    if !messages.Arr? then ToText(rt, Or(messages, Str("")))
    else
      match PromptLines(rt, messages.items)
      case Failure(e) => Failure(e)
      case Success(lines) => Success(Join(lines, "\n") + AssistantCue)
  }

  lemma PromptOfEmptyList(rt: Runtime)
    ensures MessagesToPrompt(rt, Arr([])) == Success(AssistantCue)
  {
  }

  /** For a non-empty list every message becomes one newline-terminated line, in input order,
      and the prompt ends with the bare cue. */
  lemma PromptLayout(rt: Runtime, ms: seq<JsValue>)
    requires |ms| > 0 && PromptLines(rt, ms).Success?
    ensures MessagesToPrompt(rt, Arr(ms)) == Success(Terminated(PromptLines(rt, ms).value, "\n") + "ASSISTANT:")
  {
    var lines := PromptLines(rt, ms).value;
    JoinThenSeparator(lines, "\n");
    assert Join(lines, "\n") + AssistantCue == (Join(lines, "\n") + "\n") + "ASSISTANT:";
  }

  /** The prompt of messages built from (role, content) strings with non-empty roles. */
  lemma PromptOfMessages(rt: Runtime, ms: seq<Message>)
    requires |ms| > 0 && forall i :: 0 <= i < |ms| ==> ms[i].role != ""
    ensures MessagesToPrompt(rt, Arr(AsValues(ms))) ==
            Success(Terminated(seq(|ms|, i requires 0 <= i < |ms| =>
                                 ToUpperCase(rt, ms[i].role) + ": " + ms[i].content), "\n") + "ASSISTANT:")
  {
    var vs := AsValues(ms);
    var expected := seq(|ms|, i requires 0 <= i < |ms| => ToUpperCase(rt, ms[i].role) + ": " + ms[i].content);
    assert forall i :: 0 <= i < |vs| ==> PromptLine(rt, vs[i]) == Success(expected[i]);
    assert PromptLines(rt, vs).Success?;
    assert PromptLines(rt, vs).value == expected;
    PromptLayout(rt, vs);
  }

  lemma PromptOfOneUserMessage(rt: Runtime)
    ensures MessagesToPrompt(rt, Arr([Obj(map["role" := Str("user"), "content" := Str("Hi")])])) ==
            Success("USER: Hi\nASSISTANT:")
  {
    var m := Obj(map["role" := Str("user"), "content" := Str("Hi")]);
    UpperCaseOfUser(rt);
    assert RoleLabel(rt, m) == Success("USER") && ContentText(rt, m) == "Hi";
    assert PromptLine(rt, m) == Success(RoleLabel(rt, m).value + ": " + ContentText(rt, m));
    assert "USER" + ": " + "Hi" == "USER: Hi";
    SingleLinePrompt(rt, m, "USER: Hi");
    assert "USER: Hi" + AssistantCue == "USER: Hi\nASSISTANT:";
  }

  /** A message with neither role nor content still contributes a line. */
  lemma PromptOfEmptyMessage(rt: Runtime)
    ensures MessagesToPrompt(rt, Arr([Obj(map[])])) == Success("USER: \"\"\nASSISTANT:")
  {
    var m: JsValue := Obj(map[]);
    UpperCaseOfUser(rt);
    assert RoleLabel(rt, m) == Success("USER") && ContentText(rt, m) == "\"\"";
    assert PromptLine(rt, m) == Success(RoleLabel(rt, m).value + ": " + ContentText(rt, m));
    assert "USER" + ": " + "\"\"" == "USER: \"\"";
    SingleLinePrompt(rt, m, "USER: \"\"");
    assert "USER: \"\"" + AssistantCue == "USER: \"\"\nASSISTANT:";
  }

  lemma SingleLinePrompt(rt: Runtime, m: JsValue, line: string)
    requires PromptLine(rt, m) == Success(line)
    ensures MessagesToPrompt(rt, Arr([m])) == Success(line + AssistantCue)
  {
    var lines := PromptLines(rt, [m]);
    assert [m][0] == m;
    assert lines.Success? && lines.value == [line];
  }

  // =========================================================================================
  // ollamaRequest

  const ChatPath: string := "/api/chat"
  const GeneratePath: string := "/api/generate"

  /** The argument object `{ model, messages, prompt, options }` (an absent field is undefined). */
  datatype Request = Request(model: string, messages: JsValue, prompt: JsValue, options: JsValue)

  datatype Payload = ChatBody(messages: seq<JsValue>) | GenerateBody(prompt: string)

  /** A POST to the service; `options` is None when the field is left out of the body. */
  datatype Post = Post(path: string, model: string, payload: Payload, stream: bool, options: Option<JsValue>)

  datatype Reply =
    | Response(status: int, statusText: string, data: JsValue)
    | NoResponse(reason: string)

  datatype Mode = Chat | Generate

  datatype Generation = Generation(text: string, raw: JsValue, mode: Mode)

  predicate IsSuccessStatus(status: int) {
    200 <= status < 300
  }

  /** `options || undefined`; an undefined field is not sent. */
  function SentOptions(options: JsValue): (r: Option<JsValue>)
    ensures r.Some? <==> Truthy(options)
    ensures r.Some? ==> r.value == options
  {
    if Truthy(options) then Some(options) else None
  }

  /** `r.data || r.statusText` */
  function FailureDetail(data: JsValue, statusText: string): JsValue {
    Or(data, Str(statusText))
  }

  /** `r.data?.message?.content` */
  function ChatReplyField(data: JsValue): JsValue {
    Get(Get(data, "message"), "content")
  }

  /** `r.data?.response` */
  function GenerateReplyField(data: JsValue): JsValue {
    Get(data, "response")
  }

  /** `(field ?? '').trim()`: a present field that is not a string has no trim and throws. */
  function ReplyText(field: JsValue): (r: Result<string, Thrown>)
    ensures r.Success? <==> field.Str? || Nullish(field)
    ensures field.Str? ==> r == Success(Trim(field.s))
    ensures Nullish(field) ==> r == Success("")
  {
    var v := Coalesce(field, Str(""));
    if v.Str? then Success(Trim(v.s)) else Failure(TypeError("trim"))
  }

  /** `ollamaRequest({ model, messages, prompt, options })`: chat mode exactly when messages is
      an array (even an empty one); otherwise generate mode with the prompt when it is a
      string, else with `messagesToPrompt(messages)`, which throws before anything is posted
      when the messages are an object with its own `toString`. Any status outside [200, 300)
      throws the status and the body (or the status text); otherwise the trimmed reply text
      is returned with the raw body and the mode. */
  method OllamaRequest(rt: Runtime, request: Request, respond: Post -> Reply)
    returns (sent: Option<Post>, outcome: Result<Generation, Thrown>)
    ensures sent.None? <==> !request.messages.Arr? && !request.prompt.Str? && HasOwnToString(request.messages)
    ensures sent.None? ==> outcome == Failure(MessagesToPrompt(rt, request.messages).error)
    ensures sent.Some? ==> (sent.value.path == ChatPath <==> request.messages.Arr?)
    ensures sent.Some? ==> (sent.value.path == GeneratePath <==> !request.messages.Arr?)
    ensures sent.Some? ==>
              sent.value.model == request.model && !sent.value.stream && sent.value.options == SentOptions(request.options)
    ensures request.messages.Arr? ==> sent.Some? && sent.value.payload == ChatBody(request.messages.items)
    ensures !request.messages.Arr? && request.prompt.Str? ==>
              sent.Some? && sent.value.payload == GenerateBody(request.prompt.s)
    ensures !request.messages.Arr? && !request.prompt.Str? && sent.Some? ==>
              ToText(rt, Or(request.messages, Str(""))).Success? &&
              sent.value.payload == GenerateBody(ToText(rt, Or(request.messages, Str(""))).value)
    ensures sent.Some? && respond(sent.value).NoResponse? ==>
              outcome == Failure(NetworkError(respond(sent.value).reason))
    ensures sent.Some? && respond(sent.value).Response? && !IsSuccessStatus(respond(sent.value).status) ==>
              outcome == Failure(RequestFailed(sent.value.path, respond(sent.value).status,
                                               FailureDetail(respond(sent.value).data, respond(sent.value).statusText)))
    ensures outcome.Success? ==> sent.Some? && respond(sent.value).Response? && IsSuccessStatus(respond(sent.value).status)
    ensures sent.Some? && respond(sent.value).Response? && IsSuccessStatus(respond(sent.value).status) ==>
              var data := respond(sent.value).data;
              var text := ReplyText(if request.messages.Arr? then ChatReplyField(data) else GenerateReplyField(data));
              outcome == match text
                         case Success(t) => Success(Generation(t, data, if request.messages.Arr? then Chat else Generate))
                         case Failure(e) => Failure(e)
  {
    if request.messages.Arr? {
      var post := Post(ChatPath, request.model, ChatBody(request.messages.items), false, SentOptions(request.options));
      sent := Some(post);
      var r := respond(post);
      if r.NoResponse? {
        return sent, Failure(NetworkError(r.reason));
      }
      if r.status < 200 || r.status >= 300 {
        var detail := FailureDetail(r.data, r.statusText);
        return sent, Failure(RequestFailed(ChatPath, r.status, detail));
      }
      var text := ReplyText(ChatReplyField(r.data));
      if text.Failure? {
        return sent, Failure(text.error);
      }
      return sent, Success(Generation(text.value, r.data, Chat));
    }

    var finalPrompt := if request.prompt.Str? then Success(request.prompt.s)
                       else MessagesToPrompt(rt, request.messages);
    if finalPrompt.Failure? {
      return None, Failure(finalPrompt.error);
    }
    var post := Post(GeneratePath, request.model, GenerateBody(finalPrompt.value), false, SentOptions(request.options));
    sent := Some(post);
    var r := respond(post);
    if r.NoResponse? {
      return sent, Failure(NetworkError(r.reason));
    }
    if r.status < 200 || r.status >= 300 {
      var detail := FailureDetail(r.data, r.statusText);
      return sent, Failure(RequestFailed(GeneratePath, r.status, detail));
    }
    var text := ReplyText(GenerateReplyField(r.data));
    if text.Failure? {
      return sent, Failure(text.error);
    }
    outcome := Success(Generation(text.value, r.data, Generate));
  }

  // =========================================================================================
  // sendDownstreamError

  const ServiceError: string := "Language service error"
  const FallbackStatus: int := 502

  /** The envelope `{ error, status, message, detail }` sent for any failure. */
  datatype Envelope = Envelope(error: string, status: int, message: string, detail: JsValue)

  /** `err.status` */
  function StatusProperty(e: Thrown): JsValue {
    match e
    case RequestFailed(_, status, _) => Num(Finite(status as real))
    case _ => Undefined
  }

  /** `err.detail` */
  function DetailProperty(e: Thrown): JsValue {
    match e
    case RequestFailed(_, _, detail) => detail
    case _ => Undefined
  }

  /** `err.message` */
  function ErrorMessage(rt: Runtime, e: Thrown): string {
    match e
    case TypeError(op) => rt.typeErrorMessage(op)
    case RequestFailed(path, status, _) => "Ollama " + path + " failed: " + IntToDecimal(status)
    case NetworkError(message) => message
  }

  /** `err.status && Number.isInteger(err.status) ? err.status : 502`: a nonzero integer
      status is kept, anything else becomes 502. */
  function EnvelopeStatus(v: JsValue): (s: int)
    ensures s != 0
    ensures IsInteger(v) && v.n.value != 0.0 ==> s == v.n.value.Floor && s as real == v.n.value
    ensures !(IsInteger(v) && v.n.value != 0.0) ==> s == FallbackStatus
  {
    if Truthy(v) && IsInteger(v) then v.n.value.Floor else FallbackStatus
  }

  /** `sendDownstreamError(res, err)`: the status and the four fields of the envelope. */
  function SendDownstreamError(rt: Runtime, e: Thrown): (env: Envelope)
    ensures env.error == ServiceError && env.status != 0
    ensures e.RequestFailed? && e.status != 0 ==> env.status == e.status
    ensures !(e.RequestFailed? && e.status != 0) ==> env.status == FallbackStatus
    ensures e.RequestFailed? ==> env.detail == e.detail
    ensures !e.RequestFailed? ==> env.detail == Undefined
    ensures env.message == ErrorMessage(rt, e)
  {
    var status := EnvelopeStatus(StatusProperty(e));
    Envelope(ServiceError, status, ErrorMessage(rt, e), DetailProperty(e))
  }

  /** A 404 from the chat endpoint is answered with 404, the endpoint and the body. */
  lemma NotFoundEnvelope(rt: Runtime, detail: JsValue)
    ensures SendDownstreamError(rt, RequestFailed(ChatPath, 404, detail)) ==
            Envelope(ServiceError, 404, "Ollama /api/chat failed: 404", detail)
  {
    var numeral := IntToDecimal(404);
    assert numeral == "404" by {
      assert NatToDecimal(4) == "4";
      assert NatToDecimal(40) == "40";
    }
    assert "Ollama " + ChatPath + " failed: " + "404" == "Ollama /api/chat failed: 404";
  }

  // =========================================================================================
  // The routes: argument validation, reply shaping and metadata defaults

  const CardsArrayError: string := "`cards` must be a non-empty array."
  const CardNumberError: string := "Each card must include a numeric `number`."

  /** `const { cards = [], tone = 'warm' } = req.body || {}`: a default replaces only an
      undefined field (a null `cards` stays null). */
  function SpreadArguments(body: JsValue): (args: (JsValue, JsValue))
    ensures Get(body, "cards").Undefined? ==> args.0 == Arr([])
    ensures !Get(body, "cards").Undefined? ==> args.0 == Get(body, "cards")
    ensures Get(body, "tone").Undefined? ==> args.1 == Str("warm")
    ensures !Get(body, "tone").Undefined? ==> args.1 == Get(body, "tone")
  {
    var source := Or(body, Obj(map[]));
    var cards := Get(source, "cards");
    var tone := Get(source, "tone");
    (if cards.Undefined? then Arr([]) else cards, if tone.Undefined? then Str("warm") else tone)
  }

  /** `{ number: Number(c?.number), inverted: !!c?.inverted }`; Number() may throw. */
  function NormalizeCard(rt: Runtime, c: JsValue): Result<SpreadCard, Thrown> {
    match ToNumber(rt, Get(c, "number"))
    case Failure(err) => Failure(err)
    case Success(n) => Success(SpreadCard(n, Truthy(Get(c, "inverted"))))
  }

  /** The map over the given cards, in order; the first card that throws stops it. */
  function NormalizeAll(rt: Runtime, cs: seq<JsValue>): (r: Result<seq<SpreadCard>, Thrown>)
    ensures r.Failure? <==> exists i :: 0 <= i < |cs| && NormalizeCard(rt, cs[i]).Failure?
    ensures r.Failure? ==>
              exists i :: 0 <= i < |cs| && NormalizeCard(rt, cs[i]) == Failure(r.error) &&
                          forall j :: 0 <= j < i ==> NormalizeCard(rt, cs[j]).Success?
    ensures r.Success? ==> |r.value| == |cs|
    ensures r.Success? ==> forall i :: 0 <= i < |cs| ==> NormalizeCard(rt, cs[i]) == Success(r.value[i])
  {
    if cs == [] then Success([])
    else
      match NormalizeCard(rt, cs[0])
      case Failure(err) => Failure(err)
      case Success(card) =>
        assert forall i :: 1 <= i < |cs| ==> cs[i] == cs[1..][i - 1];
        match NormalizeAll(rt, cs[1..])
        case Failure(err) =>
          FailureAfterHead(rt, cs, err);
          Failure(err)
        case Success(rest) =>
          var all := [card] + rest;
          assert all[0] == card;
          assert forall i :: 1 <= i < |cs| ==> all[i] == rest[i - 1];
          Success(all)
  }

  /** A failure in the tail of the cards is a failure at the same card of the whole, after
      cards (the head among them) that converted. */
  lemma FailureAfterHead(rt: Runtime, cs: seq<JsValue>, err: Thrown)
    requires |cs| > 0 && NormalizeCard(rt, cs[0]).Success?
    requires exists i :: 0 <= i < |cs| - 1 && NormalizeCard(rt, cs[1..][i]) == Failure(err) &&
                         forall j :: 0 <= j < i ==> NormalizeCard(rt, cs[1..][j]).Success?
    ensures exists i :: 0 <= i < |cs| && NormalizeCard(rt, cs[i]) == Failure(err) &&
                        forall j :: 0 <= j < i ==> NormalizeCard(rt, cs[j]).Success?
  {
    var i :| 0 <= i < |cs| - 1 && NormalizeCard(rt, cs[1..][i]) == Failure(err) &&
             forall j :: 0 <= j < i ==> NormalizeCard(rt, cs[1..][j]).Success?;
    assert cs[i + 1] == cs[1..][i];
    forall j | 0 <= j < i + 1 ensures NormalizeCard(rt, cs[j]).Success? {
      if j > 0 {
        assert cs[j] == cs[1..][j - 1];
      }
    }
  }

  /** `cards.slice(0, 3).map(…)`: the first three cards normalised, or the first one's error. */
  function NormalizeCards(rt: Runtime, cards: seq<JsValue>): (r: Result<seq<SpreadCard>, Thrown>)
    ensures r.Failure? <==> exists i :: 0 <= i < Min(MaxCards, |cards|) && NormalizeCard(rt, cards[i]).Failure?
    ensures r.Failure? ==>
              exists i :: 0 <= i < Min(MaxCards, |cards|) && NormalizeCard(rt, cards[i]) == Failure(r.error) &&
                          forall j :: 0 <= j < i ==> NormalizeCard(rt, cards[j]).Success?
    ensures r.Success? ==> |r.value| == Min(MaxCards, |cards|)
    ensures r.Success? ==> forall i :: 0 <= i < |r.value| ==> NormalizeCard(rt, cards[i]) == Success(r.value[i])
  {
    var taken := if |cards| <= MaxCards then cards else cards[..MaxCards];
    assert forall i :: 0 <= i < |taken| ==> taken[i] == cards[i];
    NormalizeAll(rt, taken)
  }

  /** What the spread route's checks decide: the cards to read, a 400 refusal, or an error
      thrown while normalising (which the route's catch turns into the failure envelope). */
  datatype SpreadCheck =
    | Accepted(cards: seq<SpreadCard>)
    | Refused(message: string)
    | Raised(error: Thrown)

  /** The checks of the spread route: a non-array or empty `cards` is refused; the first
      three cards are normalised, and a throw there is passed on; a card whose number
      coerces to NaN is refused; otherwise the first three cards, normalised, in input order. */
  function ValidateSpread(rt: Runtime, cards: JsValue): (r: SpreadCheck)
    ensures r == Refused(CardsArrayError) <==> !cards.Arr? || |cards.items| == 0
    ensures r.Raised? <==> cards.Arr? && |cards.items| > 0 && NormalizeCards(rt, cards.items).Failure?
    ensures r.Raised? ==> cards.Arr? && NormalizeCards(rt, cards.items) == Failure(r.error)
    ensures r == Refused(CardNumberError) <==>
              cards.Arr? && |cards.items| > 0 && NormalizeCards(rt, cards.items).Success? &&
              exists i :: 0 <= i < |NormalizeCards(rt, cards.items).value| &&
                          NormalizeCards(rt, cards.items).value[i].number.NaN?
    ensures r.Refused? ==> r.message == CardsArrayError || r.message == CardNumberError
    ensures r.Accepted? ==> cards.Arr? && 1 <= |r.cards| == Min(MaxCards, |cards.items|)
    ensures r.Accepted? ==> forall i :: 0 <= i < |r.cards| ==>
              NormalizeCard(rt, cards.items[i]) == Success(r.cards[i]) && !r.cards[i].number.NaN?
  {
    if !cards.Arr? || |cards.items| == 0 then Refused(CardsArrayError)
    else
      match NormalizeCards(rt, cards.items)
      case Failure(err) => Raised(err)
      case Success(normalized) =>
        match Find(normalized, (c: SpreadCard) => c.number.NaN?)
        case Some(_) => Refused(CardNumberError)
        case None => Accepted(normalized)
  }

  /** A number sent as a numeral string is accepted as that number; a missing flag is upright. */
  lemma NormalizeNumeralCard(rt: Runtime, n: nat)
    requires n <= MaxExactInteger
    ensures NormalizeCard(rt, Obj(map["number" := Str(NatToDecimal(n))])) == Success(SpreadCard(Finite(n as real), false))
  {
    NumberOfNumeral(rt, n);
  }

  /** A card without a number is refused, but only among the first three cards: a fourth
      card is cut off before the check. */
  lemma CardWithoutNumberRefused(rt: Runtime)
    ensures ValidateSpread(rt, Arr([Obj(map["inverted" := Bool(true)])])) == Refused(CardNumberError)
    ensures var one := Obj(map["number" := Num(Finite(1.0))]);
            ValidateSpread(rt, Arr([one, one, one, Obj(map[])])) ==
            Accepted([SpreadCard(Finite(1.0), false), SpreadCard(Finite(1.0), false), SpreadCard(Finite(1.0), false)])
  {
    var one := Obj(map["number" := Num(Finite(1.0))]);
    var c := SpreadCard(Finite(1.0), false);
    var items := [one, one, one, Obj(map[])];
    assert ToNumber(rt, Num(Finite(1.0))) == Success(Finite(1.0));
    assert NormalizeCard(rt, one) == Success(c);
    var normalized := NormalizeCards(rt, items);
    assert forall k :: 0 <= k < Min(MaxCards, |items|) ==> items[k] == one;
    assert normalized.Success? && |normalized.value| == 3;
    assert normalized.value == [c, c, c];
    assert NormalizeCards(rt, items) == Success([c, c, c]);
  }

  /** A card number that cannot be converted at all is not refused with 400: the throw
      reaches the route's catch, which answers 502 with the TypeError's message. */
  lemma UnconvertibleNumberRaises(rt: Runtime, x: JsValue)
    ensures var card := Obj(map["number" := Obj(map["toString" := x])]);
            ValidateSpread(rt, Arr([card])) == Raised(TypeError("toPrimitive"))
    ensures SendDownstreamError(rt, TypeError("toPrimitive")) ==
            Envelope(ServiceError, FallbackStatus, rt.typeErrorMessage("toPrimitive"), Undefined)
  {
    var card := Obj(map["number" := Obj(map["toString" := x])]);
    assert NormalizeCard(rt, card) == Failure(TypeError("toPrimitive"));
    assert NormalizeAll(rt, [card]) == Failure(TypeError("toPrimitive"));
  }

  /** The `meta` object of a reply. */
  datatype Meta =
    | IntroMeta(model: JsValue, mode: Mode, done: JsValue)
    | SpreadMeta(model: JsValue, mode: Mode, done: JsValue,
                 doneReason: JsValue, evalCount: JsValue, totalDuration: JsValue)

  /** `raw?.model ?? MODEL` */
  function ReportedModel(raw: JsValue, model: string): (r: JsValue)
    ensures !Nullish(r)
    ensures Nullish(Get(raw, "model")) ==> r == Str(model)
    ensures !Nullish(Get(raw, "model")) ==> r == Get(raw, "model")
  {
    Coalesce(Get(raw, "model"), Str(model))
  }

  /** `raw?.done ?? true` */
  function ReportedDone(raw: JsValue): (r: JsValue)
    ensures !Nullish(r)
    ensures Nullish(Get(raw, "done")) ==> r == Bool(true)
    ensures !Nullish(Get(raw, "done")) ==> r == Get(raw, "done")
  {
    Coalesce(Get(raw, "done"), Bool(true))
  }

  function IntroMetaOf(g: Generation, model: string): (m: Meta)
    ensures m.IntroMeta? && m.mode == g.mode && !Nullish(m.model) && !Nullish(m.done)
    ensures m.model == ReportedModel(g.raw, model) && m.done == ReportedDone(g.raw)
  {
    IntroMeta(ReportedModel(g.raw, model), g.mode, ReportedDone(g.raw))
  }

  /** The spread reply also passes on three fields of the raw body, undefined when absent. */
  function SpreadMetaOf(g: Generation, model: string): (m: Meta)
    ensures m.SpreadMeta? && m.mode == g.mode && !Nullish(m.model) && !Nullish(m.done)
    ensures m.model == ReportedModel(g.raw, model) && m.done == ReportedDone(g.raw)
    ensures m.doneReason == Get(g.raw, "done_reason") && m.evalCount == Get(g.raw, "eval_count") &&
            m.totalDuration == Get(g.raw, "total_duration")
  {
    SpreadMeta(ReportedModel(g.raw, model), g.mode, ReportedDone(g.raw),
               Get(g.raw, "done_reason"), Get(g.raw, "eval_count"), Get(g.raw, "total_duration"))
  }

  /** What a route answers: a reading, a refusal (400) or the failure envelope. */
  datatype RouteReply =
    | IntroReading(response: string, meta: Meta)
    | SpreadReading(response: string, used: seq<SpreadCard>, meta: Meta)
    | Rejected(error: string)
    | Failed(envelope: Envelope)

  /** POST /api/psychic/intro: the greeting conversation goes to the chat endpoint; a 2xx reply
      with usable text comes back as the reading with its metadata, and every failure (no
      response, a non-2xx status, a reply field that cannot be trimmed) as the envelope that
      sendDownstreamError builds for it. */
  method HandleIntro(rt: Runtime, model: string, respond: Post -> Reply)
    returns (sent: seq<Post>, status: int, reply: RouteReply)
    ensures |sent| == 1 && sent[0].path == ChatPath && sent[0].model == model && !sent[0].stream
    ensures sent[0].payload == ChatBody(AsValues(IntroMessages)) && sent[0].options == None
    ensures reply.IntroReading? ==> status == 200
    ensures reply.Failed? ==> status == reply.envelope.status
    ensures respond(sent[0]).NoResponse? ==>
              reply == Failed(SendDownstreamError(rt, NetworkError(respond(sent[0]).reason)))
    ensures respond(sent[0]).Response? && !IsSuccessStatus(respond(sent[0]).status) ==>
              reply == Failed(SendDownstreamError(rt, RequestFailed(ChatPath, respond(sent[0]).status,
                                FailureDetail(respond(sent[0]).data, respond(sent[0]).statusText))))
    ensures respond(sent[0]).Response? && IsSuccessStatus(respond(sent[0]).status) ==>
              var data := respond(sent[0]).data;
              reply == match ReplyText(ChatReplyField(data))
                       case Success(text) => IntroReading(text, IntroMetaOf(Generation(text, data, Chat), model))
                       case Failure(err) => Failed(SendDownstreamError(rt, err))
  {
    var messages := IntroPrompt(Obj(map[]));
    var post, outcome := OllamaRequest(rt, Request(model, Arr(AsValues(messages.value)), Undefined, Undefined), respond);
    sent := [post.value];
    match outcome {
      case Success(g) =>
        status := 200;
        reply := IntroReading(g.text, IntroMetaOf(g, model));
      case Failure(e) =>
        var envelope := SendDownstreamError(rt, e);
        status := envelope.status;
        reply := Failed(envelope);
    }
  }

  /** The spread route's decision on a request body. */
  function SpreadCheckOf(rt: Runtime, body: JsValue): SpreadCheck {
    ValidateSpread(rt, SpreadArguments(body).0)
  }

  /** POST /api/psychic/spread: a refused request answers 400 and a throw while normalising
      answers with its envelope, both before anything is posted; otherwise the spread
      conversation for the normalised cards goes to the chat endpoint, and the reply carries
      the text, the cards used and the metadata, or the envelope of the failure. */
  method HandleSpread(rt: Runtime, model: string, table: seq<CardEntry>, body: JsValue, respond: Post -> Reply)
    returns (sent: seq<Post>, status: int, reply: RouteReply)
    ensures SpreadCheckOf(rt, body).Refused? ==>
              sent == [] && status == 400 && reply == Rejected(SpreadCheckOf(rt, body).message)
    ensures SpreadCheckOf(rt, body).Raised? ==>
              sent == [] && reply == Failed(SendDownstreamError(rt, SpreadCheckOf(rt, body).error))
    ensures |sent| == 1 <==> SpreadCheckOf(rt, body).Accepted?
    ensures reply.Rejected? <==> SpreadCheckOf(rt, body).Refused?
    ensures |sent| <= 1
    ensures |sent| == 1 ==>
              sent[0].path == ChatPath && sent[0].model == model && !sent[0].stream && sent[0].options == None &&
              sent[0].payload == ChatBody(AsValues(PsychicSpread(rt, table, SpreadCheckOf(rt, body).cards,
                                                                 SpreadArguments(body).1)))
    ensures reply.SpreadReading? ==> status == 200
    ensures reply.Failed? ==> status == reply.envelope.status
    ensures |sent| == 1 && respond(sent[0]).NoResponse? ==>
              reply == Failed(SendDownstreamError(rt, NetworkError(respond(sent[0]).reason)))
    ensures |sent| == 1 && respond(sent[0]).Response? && !IsSuccessStatus(respond(sent[0]).status) ==>
              reply == Failed(SendDownstreamError(rt, RequestFailed(ChatPath, respond(sent[0]).status,
                                FailureDetail(respond(sent[0]).data, respond(sent[0]).statusText))))
    ensures |sent| == 1 && respond(sent[0]).Response? && IsSuccessStatus(respond(sent[0]).status) ==>
              var data := respond(sent[0]).data;
              reply == match ReplyText(ChatReplyField(data))
                       case Success(text) =>
                         SpreadReading(text, SpreadCheckOf(rt, body).cards, SpreadMetaOf(Generation(text, data, Chat), model))
                       case Failure(err) => Failed(SendDownstreamError(rt, err))
  {
    var (cards, tone) := SpreadArguments(body);
    var checked := ValidateSpread(rt, cards);
    match checked {
      case Refused(message) =>
        return [], 400, Rejected(message);
      case Raised(err) =>
        var envelope := SendDownstreamError(rt, err);
        return [], envelope.status, Failed(envelope);
      case Accepted(normalized) =>
        var messages := PsychicSpread(rt, table, normalized, tone);
        var post, outcome := OllamaRequest(rt, Request(model, Arr(AsValues(messages)), Undefined, Undefined), respond);
        sent := [post.value];
        match outcome {
          case Success(g) =>
            status := 200;
            reply := SpreadReading(g.text, normalized, SpreadMetaOf(g, model));
          case Failure(e) =>
            var envelope := SendDownstreamError(rt, e);
            status := envelope.status;
            reply := Failed(envelope);
        }
    }
  }

  /** An empty card list is refused with 400 and nothing is posted. */
  lemma EmptySpreadRefused(rt: Runtime)
    ensures SpreadCheckOf(rt, Obj(map["cards" := Arr([])])) == Refused(CardsArrayError)
    ensures SpreadCheckOf(rt, Obj(map[])) == Refused(CardsArrayError)
    ensures SpreadCheckOf(rt, Null) == Refused(CardsArrayError)
  {
  }
}
