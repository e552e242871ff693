# tarot-readings, modelled in Dafny

tarot-readings is a small web application. A React page draws a tarot spread. An Express
backend turns a reading request into a chat conversation for an Ollama language-model
server, sends it there, and returns the trimmed reply with some metadata or a uniform error
envelope. This project models the core of that flow and proves properties of the model:

- `js.dfy` (module `Js`): the part of JavaScript the code depends on. This covers
  parsed-JSON values, truthiness, `?.`, `||`, `??`, `String()`, `Number()`, `trim`,
  `toUpperCase`, `join`, `find` and `JSON.stringify` of primitives. Engine-dependent pieces
  are functions in a `Runtime` parameter: float formatting, general number parsing,
  stringifying composites, non-ASCII case mapping and TypeError messages.
- `wrappers.dfy`: `Option` and `Result`.
- `chat.dfy` (module `Chat`): the `{ role, content }` message.
- `psychic.dfy` (module `Psychic`): the greeting template `introPrompt`.
- `spread.dfy` (module `Spread`): `resolveCards` and the three-card template
  `psychicSpread`.
- `server.dfy` (module `Server`): the backend. This covers the model and base-URL
  configuration, `messagesToPrompt`, `ollamaRequest`, `sendDownstreamError`, the spread
  route's validation and normalisation, the `meta` defaults, and both routes.
  - `ollamaRequest` and the routes are methods. The HTTP exchange is a function parameter
    `respond` from the posted request to the service's reply.
  - Errors the code throws are values of `Js.Thrown`, carried in a `Result`.
- `classic_spread.dfy` (module `ClassicSpread`): the page's `generateUniqueRandomCards`
  and `getCardData`.
  - `Math.random` is an oracle: a finite sequence of draws in [0, 1).
  - The draw loop is an imperative method over the set `numbers` and the list `cards`.
  - It is proved equal to the recursive definition `Deal`.
- `interplay.dfy` (module `Interplay`): how the page's drawn cards meet the backend's checks
  and card names.

Notes on what the code does, which the model follows:

- `messagesToPrompt` is not total. A truthy role that is not a string has no `toUpperCase`,
  so the call throws. `Server.RoleLabel` and `Server.MessagesToPrompt` say exactly when.
- A parsed JSON object with its own `toString` property cannot be converted to a primitive:
  the property is not callable, and `valueOf` gives the object back. So `String()` and
  `Number()` of such an object throw a TypeError, and so do they of an array holding one.
  `messagesToPrompt` then throws on such non-array messages.
- For such a card number the spread route does not answer with the 400 for a non-numeric
  number. The throw reaches the route's catch, which answers 502 with the TypeError's
  message: `Server.UnconvertibleNumberRaises`.
- The comment at backend/server.js:41-42 says that `ollamaRequest` falls back to generate
  mode by converting the messages to a prompt. In the code, any array of messages takes chat
  mode (backend/server.js:54), an empty one included. So generate mode only ever sees
  non-array messages, and the conversation-flattening branch of `messagesToPrompt` cannot be
  reached from it: `Server.OllamaRequest` states that the generate prompt is then
  `String(messages || '')`.
- `introPrompt(null)` throws, because its parameter is a destructuring pattern. Only
  `undefined` takes the default.
- In the spread route a `null` `cards` is not replaced by the default `[]`. It is refused as
  "not an array".

## Model

| member | source | states |
|---|---|---|
| Server.ConfiguredModel | backend/server.js:15 | the configured model is the environment value when non-empty, else `tinyllama`; never empty |
| Server.StripTrailingSlash | backend/server.js:16 | one trailing `/` is removed and nothing else; a URL not ending in `/` is unchanged |
| Server.ConfiguredBaseUrl | backend/server.js:16 | the base URL is the default when the variable is unset or empty, else the value after `StripTrailingSlash` |
| Server.StripRemovesOneSlash | backend/server.js:16 | of two trailing slashes only one is removed |
| Server.UpperCaseOfUser | backend/server.js:30 | the default role `user` upper-cases to `USER` |
| Server.RoleOf | backend/server.js:30 | no contract; defines the role as `m?.role \|\| 'user'` |
| Server.RoleLabel | backend/server.js:30 | the role label fails exactly when the role is truthy and not a string; a falsy role gives `USER`; a string role is upper-cased |
| Server.ContentText | backend/server.js:31 | string content is kept verbatim; null or missing content becomes `""`; any other content is JSON-stringified |
| Server.PromptLine | backend/server.js:30-32 | no contract; defines one message's line `${role}: ${content}`, failing with its role's throw |
| Server.PromptLines | backend/server.js:28-33 | one line per message, in order; the map fails exactly when some message's line fails |
| Server.MessagesToPrompt | backend/server.js:25-36 | a non-array fails exactly when it is an object with its own `toString`; a falsy one gives the empty prompt and a string is itself; an array fails exactly when some role throws, and its prompt ends in `\nASSISTANT:` |
| Server.PromptOfEmptyList | backend/server.js:28-35 | an empty conversation flattens to the bare cue `\nASSISTANT:` |
| Server.PromptLayout | backend/server.js:28-35 | for a non-empty list every line is followed by a newline and the prompt ends with `ASSISTANT:` |
| Server.PromptOfMessages | backend/server.js:25-36 | a template conversation with non-empty roles flattens to `ROLE: content` lines, then the cue |
| Server.PromptOfOneUserMessage | backend/server.js:25-36 | `[{role:'user', content:'Hi'}]` flattens to `USER: Hi\nASSISTANT:` |
| Server.PromptOfEmptyMessage | backend/server.js:29-33 | a message with neither role nor content still gives the line `USER: ""` |
| Server.SingleLinePrompt | backend/server.js:28-35 | a one-message conversation is its line followed by the cue |
| Server.SentOptions | backend/server.js:59 | options go into the body exactly when they are truthy, unchanged |
| Server.FailureDetail | backend/server.js:63 | no contract; defines the thrown detail as `r.data \|\| r.statusText` |
| Server.ChatReplyField | backend/server.js:71 | no contract; defines the chat reply field `r.data?.message?.content` |
| Server.GenerateReplyField | backend/server.js:93 | no contract; defines the generate reply field `r.data?.response` |
| Server.NormalizeAll | backend/server.js:152-155 | the map over the cards succeeds exactly when every card converts, then card by card; otherwise it fails with the first failing card's error |
| Server.ReplyText | backend/server.js:71 | the reply text is the trimmed string field, empty when the field is missing, and a failure when the field is present but not a string |
| Server.OllamaRequest | backend/server.js:44-95 | nothing is posted exactly when generate mode must build the prompt from messages that throw, and then the outcome is that throw; otherwise the chat path exactly when messages is an array, with the model, `stream: false` and the options; the chat body holds the messages, the generate body the string prompt or `String(messages \|\| '')`; a missing response, a non-2xx status (with the path, the status and the body or status text) and a 2xx answer each map to their outcome; success implies a 2xx response |
| Server.StatusProperty | backend/server.js:65 | no contract; defines `err.status`: the status of a request failure, undefined for any other error |
| Server.DetailProperty | backend/server.js:66 | no contract; defines `err.detail`: the detail of a request failure, undefined for any other error |
| Server.ErrorMessage | backend/server.js:64 | no contract; defines `err.message`: `Ollama <path> failed: <status>` for a request failure, the engine's message for a TypeError, the client's message for a network error |
| Server.EnvelopeStatus | backend/server.js:101 | the reported status is a nonzero integer `err.status` when there is one, else 502; never 0 |
| Server.SendDownstreamError | backend/server.js:100-117 | the envelope has error `Language service error` and the error's message; a request failure keeps its nonzero status and its detail; any other error gets 502 and an undefined detail |
| Server.NotFoundEnvelope | backend/server.js:62-67 | a 404 from the chat endpoint becomes a 404 envelope with message `Ollama /api/chat failed: 404` and the body as detail |
| Server.SpreadArguments | backend/server.js:146 | only an undefined `cards` or `tone` takes its default (`[]`, `'warm'`); any other value of either, null included, is kept as given |
| Server.NormalizeCard | backend/server.js:153-154 | no contract; defines one card's `{ number: Number(c?.number), inverted: !!c?.inverted }`, failing with `Number`'s throw |
| Server.NormalizeCards | backend/server.js:152-155 | the first three cards, in order, each with `Number(number)` and `!!inverted`; it throws exactly when one of them throws, and then with the first such card's error |
| Server.NormalizeNumeralCard | backend/server.js:153-154 | a card whose number is a numeral string normalises to that number, upright |
| Server.ValidateSpread | backend/server.js:146-160 | refused as not-an-array exactly when `cards` is not an array or is empty; raised, with the conversion's error, exactly when normalising one of the first three cards throws; refused as non-numeric exactly when normalisation succeeds and a number is NaN; otherwise the first three normalised cards, none NaN |
| Server.CardWithoutNumberRefused | backend/server.js:152-160 | a card without a number is refused, but a fourth card is cut off before the check and the first three are accepted |
| Server.UnconvertibleNumberRaises | backend/server.js:153 | a number given as an object with its own `toString` throws a TypeError, which the catch answers with 502 and no detail, not with 400 |
| Server.EmptySpreadRefused | backend/server.js:146-149 | an empty list, a missing `cards` and a null body are all refused with the array error |
| Server.SpreadCheckOf | backend/server.js:146-160 | no contract; defines the route's decision on a body: the defaults of `SpreadArguments`, then `ValidateSpread` |
| Server.ReportedModel | backend/server.js:134 | the reported model is the reply's own model when present, else the configured one; never nullish |
| Server.ReportedDone | backend/server.js:136 | `done` is the reply's value when present, else `true`; never nullish |
| Server.IntroMetaOf | backend/server.js:133-137 | the greeting meta carries the mode, the reported model (`raw?.model ?? MODEL`) and the reported `done` (`raw?.done ?? true`) |
| Server.SpreadMetaOf | backend/server.js:173-180 | the spread meta carries the mode, the reported model and `done`, and passes on `done_reason`, `eval_count` and `total_duration` from the raw reply |
| Server.HandleIntro | backend/server.js:119-142 | exactly one chat request with the greeting conversation and no options; no response and a non-2xx status each give their envelope; a 2xx reply gives the trimmed text with its meta and status 200, or the envelope of the trim's TypeError; a failure answers with the envelope's status |
| Server.HandleSpread | backend/server.js:144-185 | the answer is a 400 refusal exactly when validation refuses, and then nothing is posted; a throwing conversion answers its envelope and posts nothing; exactly an accepted request posts, once, the spread conversation of the normalised cards and the tone to the chat endpoint; no response and a non-2xx status each give their envelope; a 2xx reply gives the text, the cards used and the meta with status 200, or the envelope of the trim's TypeError |
| Psychic.IntroPrompt | backend/templates/psychic.js:2-16 | fails exactly on `null`; otherwise the system persona message followed by the user enticement message |
| Psychic.IntroPromptConstant | backend/templates/psychic.js:2-16 | every successful call returns the same conversation |
| Chat.AsValue | backend/templates/spread.js:21-36 | the message object's `role` and `content` properties are its strings |
| Chat.AsValues | backend/templates/spread.js:20-37 | the message array holds each message's object, in order |
| Spread.CardName | backend/templates/spread.js:7-10 | a card's name is the non-empty name of the first table row with its number, else `Card <number>` |
| Spread.Position | backend/templates/spread.js:9 | no contract; defines card i's position: `The Past`, `The Present`, `The Future`, else `Pos<i+1>` |
| Spread.ResolveCards | backend/templates/spread.js:5-15 | at most three cards; card i gets position i of Past, Present, Future, its table name and its flag |
| Spread.Clauses | backend/templates/spread.js:30-32 | one sentence per resolved card, in order |
| Spread.Clause | backend/templates/spread.js:31 | no contract; defines one card's sentence `<position>: "<name>" (Upright\|Inverted).` |
| Spread.PsychicSpread | backend/templates/spread.js:17-38 | the reader persona, then one user message of the header, each card sentence followed by a space, and the two closing sentences |
| Spread.UserContentLayout | backend/templates/spread.js:28-35 | the space-joined user content is header, space, space-terminated sentences, closings |
| Spread.JoinFramed | backend/templates/spread.js:28-35 | joining first, middle parts and two last parts with a separator puts the separator after every part but the last |
| Spread.ToneIgnored | backend/templates/spread.js:17 | the tone does not change the conversation |
| Spread.ExtraCardsIgnored | backend/templates/spread.js:6 | cards after the third do not change the conversation |
| Spread.SampleResolution | backend/templates/spread.js:5-15 | a card found in the table gets the table's name; one missing gets `Card 7` |
| ClassicSpread.CardNumberOf | frontend/src/ClassicSpread.js:21 | a draw in [0, 1) gives a card number in 1..78 |
| ClassicSpread.InvertedOf | frontend/src/ClassicSpread.js:27 | no contract; defines the flag draw `Math.random() < 0.5` |
| ClassicSpread.Deal | frontend/src/ClassicSpread.js:20-30 | no contract; defines the draw recursively. It is the reference definition that `GenerateUniqueRandomCards`, `DealIsHand`, `DealExtends` and `DealOfMoreDraws` are proved against |
| ClassicSpread.NumbersAppend | frontend/src/ClassicSpread.js:24-25 | adding a card adds exactly its number to the set of held numbers |
| ClassicSpread.NumbersOfDistinct | frontend/src/ClassicSpread.js:17-25 | distinct cards hold as many numbers as cards |
| ClassicSpread.GenerateUniqueRandomCards | frontend/src/ClassicSpread.js:16-33 | the loop yields exactly the deal of the draws: pairwise distinct numbers in 1..78, at most three, and three exactly when reported complete |
| ClassicSpread.DealIsHand | frontend/src/ClassicSpread.js:20-30 | every deal holds distinct numbers of the deck, at most three |
| ClassicSpread.DealExtends | frontend/src/ClassicSpread.js:20-30 | a deal only adds cards to those already held |
| ClassicSpread.DealOfMoreDraws | frontend/src/ClassicSpread.js:20-30 | more draws never take back a card, and once three are held further draws change nothing |
| ClassicSpread.SampleDeal | frontend/src/ClassicSpread.js:16-33 | a repeated number is drawn again and uses no flag draw; the sample deals 1, 8 and 78 |
| ClassicSpread.GetCardData | frontend/src/ClassicSpread.js:52-54 | nothing exactly when no row has the number; otherwise the first row with it |
| Interplay.CardValue | frontend/src/ClassicSpread.js:58-60 | a drawn card is posted with its number and its flag |
| Interplay.HandValue | frontend/src/ClassicSpread.js:58-60 | the posted `cards` array holds each drawn card, in order |
| Interplay.CardNormalizes | backend/server.js:152-155 | a posted drawn card normalises to its own number and flag |
| Interplay.DealtHandAccepted | frontend/src/ClassicSpread.js:58-60 | every non-empty dealt hand passes the spread route's checks with the same numbers, flags and order |
| Interplay.CardNameAgreesWithCardData | backend/templates/spread.js:7-10 | the backend names a deck card by the row the page's getCardData finds, or `Card <n>` when that row is missing or nameless |
| Js.Or | backend/server.js:26 | the logical-or operator with a truthy fallback gives a truthy value |
| Js.Coalesce | backend/server.js:31 | nullish coalescing with a non-nullish fallback gives a non-nullish value |
| Js.NatToDecimal | backend/server.js:64 | the numeral of a status is non-empty digits without a leading zero |
| Js.DecimalRoundTrip | backend/server.js:64 | reading back the numeral of n gives n |
| Js.NumberOfNumeral | backend/server.js:153 | `Number` of the numeral of an exactly representable natural gives that natural |
| Js.TextOfInteger | backend/templates/spread.js:10 | `String` of an integer strictly between -10^21 and 10^21 is its plain numeral, with a minus sign when it is negative |
| Js.ArrayText | backend/server.js:153 | an example: `String(['a', null, 'b', undefined])` is `a,,b,` |
| Js.ToText | backend/server.js:26 | `String` of a non-array throws exactly when it is an object with its own `toString` |
| Js.ElementTexts | backend/server.js:153 | the element texts of an array, in order, with null and undefined printing as nothing; it fails exactly when some element's text fails |
| Js.ArrayTextIsJoin | backend/server.js:153 | `String` of any array throws exactly when one of its elements does, and otherwise is the element texts joined by commas |
| Js.PrefixTextIsJoin | backend/server.js:153 | the same for the first n elements of an array |
| Js.ToNumber | backend/server.js:153 | `Number` throws exactly when `String` does; a string is parsed; an array or an object is parsed from its `String` form |
| Js.ArrayNumber | backend/server.js:153 | examples: `Number([7])` is 7 and `Number([])` is 0 |
| Js.ShadowedToStringThrows | backend/server.js:153 | `Number` of an object with its own `toString`, alone or inside an array, throws |
| Js.TrimStart | backend/server.js:71 | strips exactly the leading white space |
| Js.TrimEnd | backend/server.js:71 | strips exactly the trailing white space |
| Js.Trim | backend/server.js:71 | the trimmed text has no white space at either end and sits in the input with only white space around it |
| Js.TrimInfix | backend/server.js:93 | stripping the front and then the back leaves an infix surrounded by white space |
| Js.TrimOfNonBlank | backend/server.js:93 | text without white space at its ends is left unchanged |
| Js.TrimIdempotent | backend/server.js:93 | trimming twice is trimming once |
| Js.UpperCaseAscii | backend/server.js:30 | on ASCII text upper-casing maps a-z to A-Z, keeps everything else and keeps the length |
| Js.JoinThenSeparator | backend/server.js:34-35 | a join followed by one more separator puts the separator after every part |
| Js.TerminatedAppend | backend/templates/spread.js:28-35 | separator-terminating a concatenation is concatenating the terminated halves |
| Js.JoinLast | backend/templates/spread.js:28-35 | a join is the other parts, each followed by the separator, then the last part |
| Js.JoinSnoc | backend/server.js:153 | joining one more part after a non-empty list adds the separator and that part |
| Js.FindIndex | backend/server.js:157 | the index of the first element satisfying the test, or none exactly when no element does |
| Js.Find | backend/templates/spread.js:7 | the first element satisfying the test, or none exactly when no element does |
| Js.DigitChar | backend/server.js:64 | a digit below ten is the digit character with that value |
| Js.QuoteBodyOfPlainText | backend/server.js:31 | text without quotes, backslashes or control characters needs no JSON escape |
| Js.StringifyOfPlainText | backend/server.js:31 | such text is stringified as itself between double quotes |

## Left out

- The HTTP plumbing is left out: the axios client, the 60-second timeout, headers, Express
  routing, CORS, the JSON body limit, `app.listen`, the port and `/healthz`. A reply is the
  abstract `Reply` value that `respond` returns.
- Reading `process.env` is left out. The configuration functions take the variable's value
  as an `Option`.
- The console logging in `sendDownstreamError` and on the page is left out. It changes no
  result.
- `res.json` serialisation is left out. Fields that are undefined in the envelope or the meta
  are kept as `Undefined` in the model, while JSON drops them.
- The page's React state, effects, rendering, the posting of the spread and the display of
  the reply are left out. `Interplay` states only what the posted cards are.
- The contents of `cards.json` are left out. The table is a parameter, and its rows carry
  only number and name, not descriptions or images.
- The backend reads backend/data/cards.json and the page reads frontend/src/cards.json.
  `Interplay.CardNameAgreesWithCardData` takes one table for both, so it holds only while
  the two files hold the same rows.
- IEEE-754 details are left out: formatting and parsing of non-integral or very large
  numbers, and `-0`. These are `Runtime` functions.
- Full Unicode case mapping is left out. It is the `Runtime` function `upperCase`.
- JSON.stringify of arrays and objects is left out. It is the `Runtime` function
  `stringifyComposite`.
- The text of engine TypeError messages is left out. It is the `Runtime` function
  `typeErrorMessage`.
- Spread.ResolveCards: takes the normalised cards the route passes in, not arbitrary
  JavaScript values. `psychicSpread` is only called that way.
- Spread.PsychicSpread: does not model the template's default arguments, which no caller
  uses.
- ClassicSpread.GenerateUniqueRandomCards: the draws are a finite oracle, so the model stops
  when the draws run out, and says so through `complete`. The page loops until it holds three
  cards, which needs an unbounded supply of random numbers.
