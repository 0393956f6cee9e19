/**
  The Cloudflare Worker's `fetch` handler (cloudflare-worker/src/index.js):
  a Telegram webhook that checks the sender, acknowledges, and triggers a
  GitHub `repository_dispatch` event.

  The handler is modelled as a method over abstracted inputs. The parsed
  request body, the environment and the behaviour of the network are
  parameters; the outbound HTTP calls the handler issues are recorded, in
  order, in the returned `calls`, together with the response it answers.
*/
module Worker {

  import opened Options
  import opened JsValues
  import MarkdownV2

  /** The inbound request; `body` is None when `request.json()` (or reading `.message` from it) throws. */
  datatype Request = Request(httpMethod: string, body: Option<Update>)

  /** The parsed Telegram update; absent fields are None. */
  datatype Update = Update(message: Option<Message>)
  datatype Message = Message(text: Option<string>, chat: Option<Chat>, from: Option<User>)
  datatype Chat = Chat(id: Scalar)
  datatype User = User(id: Scalar)

  /** The worker's environment bindings. */
  datatype Env = Env(allowedTelegramUserId: Scalar, telegramBotToken: Scalar, githubRepo: Scalar, ghPat: Scalar)

  /** Outcome of `dispatchRes.text()`. */
  datatype BodyRead = Read(text: string) | ReadRejected

  /** Outcome of the dispatch `fetch`: a rejected promise, or a response with a status and a body. */
  datatype DispatchReply = DispatchRejected | Replied(status: int, body: BodyRead)

  /**
    How the outside world answers this request's outbound calls.
    `rejectedSends` holds the positions (0 for the first, in issue order) of the
    `sendTelegram` calls whose `fetch` rejects; every other send resolves, and
    its answer is never looked at.
  */
  datatype Network = Network(rejectedSends: set<nat>, dispatch: DispatchReply)

  datatype Response = Response(status: int, body: string)

  /** An outbound HTTP call, as the handler issues it. */
  datatype Call =
    | SendMessage(url: string, chatId: Scalar, text: string, parseMode: string)
    | Dispatch(url: string, authorization: string, eventType: string, message: string, payloadChatId: string)

  const StartCommand := "/start"
  const EventType := "telegram-devops"
  const ErrorBodyLimit := 200

  /** The reply to an unauthorised sender as index.js line 30 writes it. */
  const UnauthorizedTextAsWritten := "⛔ Unauthorized user."
  /** The same reply with its period escaped, as MarkdownV2 requires. */
  const UnauthorizedText := "⛔ Unauthorized user\\."
  const WelcomeText := "👋 DevOps Bot ready\\!\n\nSend me a message and I'll trigger a CI/CD pipeline\\."
  const AckText := "⏳ Got it\\! Triggering pipeline\\.\\.\\."

  predicate StartsWith(s: string, prefix: string) {
    |prefix| <= |s| && s[..|prefix|] == prefix
  }

  /** `response.ok`. */
  predicate IsOk(status: int) {
    200 <= status <= 299
  }

  /** `!message.text` for a text field that is absent or a string. */
  predicate IsFalsyText(text: Option<string>) {
    text.None? || text.value == ""
  }

  /** `s.slice(0, end)`: the first `end` characters, or all of them when there are fewer. */
  function Slice(s: string, end: nat): (r: string)
    ensures |r| == if |s| <= end then |s| else end
    ensures r == s[..|r|]
  {
    if |s| <= end then s else s[..end]
  }

  const TelegramApi := "https://api.telegram.org/bot"
  const SendMessagePath := "/sendMessage"
  const GitHubRepos := "https://api.github.com/repos/"
  const DispatchesPath := "/dispatches"
  const FailureOpening := "❌ GitHub dispatch failed \\("
  const FailureClosing := "\\): "

  /**
    `sendTelegram(botToken, chatId, text)`: one POST to the Bot API's
    sendMessage method of the bot named by the token, carrying the chat id and
    the text unchanged, in MarkdownV2.
  */
  function SendTelegram(botToken: Scalar, chatId: Scalar, text: string): (r: Call)
    ensures r.SendMessage?
    ensures r.chatId == chatId && r.text == text && r.parseMode == "MarkdownV2"
    ensures var n, m := |TelegramApi|, |r.url| - |SendMessagePath|;
            && n <= m
            && r.url[..n] == TelegramApi
            && r.url[n..m] == ToJsString(botToken)
            && r.url[m..] == SendMessagePath
  {
    var token := ToJsString(botToken);
    var url := TelegramApi + token + SendMessagePath;
    assert url[..|TelegramApi|] == TelegramApi;
    assert url[|TelegramApi|..|url| - |SendMessagePath|] == token;
    assert url[|url| - |SendMessagePath|..] == SendMessagePath;
    SendMessage(url, chatId, text, "MarkdownV2")
  }

  /**
    The `repository_dispatch` request for a message and its chat: the
    configured repository's dispatches endpoint, the token header, the fixed
    event type, the text unchanged and the chat id as a string.
  */
  function DispatchCall(env: Env, text: string, chatId: Scalar): (r: Call)
    ensures r.Dispatch?
    ensures var n, m := |GitHubRepos|, |r.url| - |DispatchesPath|;
            && n <= m
            && r.url[..n] == GitHubRepos
            && r.url[n..m] == ToJsString(env.githubRepo)
            && r.url[m..] == DispatchesPath
    ensures |r.authorization| >= 6 && r.authorization[..6] == "token "
            && r.authorization[6..] == ToJsString(env.ghPat)
    ensures r.eventType == EventType && r.message == text
    ensures r.payloadChatId == ToJsString(chatId)
    ensures chatId.Number? ==> DecimalValue(r.payloadChatId) == chatId.n
    ensures chatId.Text? ==> r.payloadChatId == chatId.s
  {
    var repo, pat := ToJsString(env.githubRepo), ToJsString(env.ghPat);
    var url := GitHubRepos + repo + DispatchesPath;
    var authorization := "token " + pat;
    assert url[..|GitHubRepos|] == GitHubRepos;
    assert url[|GitHubRepos|..|url| - |DispatchesPath|] == repo;
    assert url[|url| - |DispatchesPath|..] == DispatchesPath;
    assert authorization[..6] == "token " && authorization[6..] == pat;
    Dispatch(url, authorization, EventType, text, ToJsString(chatId))
  }

  /**
    The fixed part of the failure notice, up to the escaped error body: the
    status's numeral between escaped parentheses.
  */
  function FailureHead(status: int): (r: string)
    ensures var n, m := |FailureOpening|, |r| - |FailureClosing|;
            && n <= m
            && r[..n] == FailureOpening
            && r[m..] == FailureClosing
            && DecimalValue(r[n..m]) == status
  {
    var d := Decimal(status);
    var r := FailureOpening + d + FailureClosing;
    assert r[..|FailureOpening|] == FailureOpening;
    assert r[|FailureOpening|..|r| - |FailureClosing|] == d;
    assert r[|r| - |FailureClosing|..] == FailureClosing;
    DecimalRoundTrip(status);
    r
  }

  /**
    The notice sent when the dispatch answers with a status that is not ok:
    the head, then the first 200 characters of the error body escaped, so that
    the rest of the notice reads back as those characters verbatim.
  */
  function FailureNotice(status: int, errBody: string): (r: string)
    ensures |FailureHead(status)| <= |r| <= |FailureHead(status)| + 2 * ErrorBodyLimit
    ensures r[..|FailureHead(status)|] == FailureHead(status)
    ensures MarkdownV2.Unescape(r[|FailureHead(status)|..]) == Some(Slice(errBody, ErrorBodyLimit))
  {
    var head, tail := FailureHead(status), Slice(errBody, ErrorBodyLimit);
    var r := head + MarkdownV2.Escape(tail);
    assert r[..|head|] == head;
    assert r[|head|..] == MarkdownV2.Escape(tail);
    MarkdownV2.UnescapeEscape(tail);
    r
  }

  // ---- The branches of the handler, stated over its inputs ----

  /** A POST whose body parsed to an update with a message whose text is non-empty. */
  predicate IsTextUpdate(request: Request) {
    && request.httpMethod == "POST"
    && request.body.Some?
    && request.body.value.message.Some?
    && !IsFalsyText(request.body.value.message.value.text)
  }

  function MessageOf(request: Request): Message
    requires IsTextUpdate(request)
  {
    request.body.value.message.value
  }

  function TextOf(request: Request): string
    requires IsTextUpdate(request)
  {
    MessageOf(request).text.value
  }

  /** The message has both the `chat` and the `from` objects whose ids the handler reads. */
  predicate HasChatAndSender(request: Request) {
    IsTextUpdate(request) && MessageOf(request).chat.Some? && MessageOf(request).from.Some?
  }

  function ChatIdOf(request: Request): Scalar
    requires HasChatAndSender(request)
  {
    MessageOf(request).chat.value.id
  }

  /** The sender's id and the allowed id are equal once both are turned into strings. */
  predicate FromAllowedUser(request: Request, env: Env)
    requires HasChatAndSender(request)
  {
    ToJsString(MessageOf(request).from.value.id) == ToJsString(env.allowedTelegramUserId)
  }

  /** Authorised text that is not the `/start` command: the handler triggers the pipeline. */
  predicate IsPipelineCommand(request: Request, env: Env) {
    HasChatAndSender(request) && FromAllowedUser(request, env) && !StartsWith(TextOf(request), StartCommand)
  }

  /**
    The `fetch` handler. Every path answers 200 "OK"; the outbound calls are
    issued one after the other, and a call that rejects ends the handler in
    its catch block, so nothing follows it.
  */
  method Fetch(request: Request, env: Env, net: Network) returns (response: Response, calls: seq<Call>)
    ensures response == Response(200, "OK")
    // Not a POST, unparsable body, no message or no text: nothing is sent.
    ensures !IsTextUpdate(request) ==> calls == []
    // A message without `chat` or `from` throws before any call.
    ensures IsTextUpdate(request) && !HasChatAndSender(request) ==> calls == []
    // The sender is checked first; a stranger gets one notice and nothing else.
    ensures HasChatAndSender(request) && !FromAllowedUser(request, env) ==>
              calls == [SendTelegram(env.telegramBotToken, ChatIdOf(request), UnauthorizedTextAsWritten)]
    // ... and that notice, with its bare final period, is not well-formed MarkdownV2.
    ensures HasChatAndSender(request) && !FromAllowedUser(request, env) ==>
              MarkdownV2.Unescape(calls[0].text).None?
    ensures HasChatAndSender(request) && FromAllowedUser(request, env) && StartsWith(TextOf(request), StartCommand) ==>
              calls == [SendTelegram(env.telegramBotToken, ChatIdOf(request), WelcomeText)]
    // Any other authorised text: acknowledgement first, then the dispatch unless the acknowledgement rejected.
    ensures IsPipelineCommand(request, env) ==>
              1 <= |calls| <= 3 && calls[0] == SendTelegram(env.telegramBotToken, ChatIdOf(request), AckText)
    ensures IsPipelineCommand(request, env) ==> (|calls| >= 2 <==> 0 !in net.rejectedSends)
    ensures IsPipelineCommand(request, env) && |calls| >= 2 ==>
              calls[1] == DispatchCall(env, TextOf(request), ChatIdOf(request))
    // A failure notice follows exactly when the dispatch answered, not ok, and its body could be read.
    ensures IsPipelineCommand(request, env) ==>
              (|calls| == 3 <==> && 0 !in net.rejectedSends
                                 && net.dispatch.Replied?
                                 && !IsOk(net.dispatch.status)
                                 && net.dispatch.body.Read?)
    ensures IsPipelineCommand(request, env) && |calls| == 3 ==>
              calls[2] == SendTelegram(env.telegramBotToken, ChatIdOf(request),
                                       FailureNotice(net.dispatch.status, net.dispatch.body.text))
    // The only dispatch is the second call of a pipeline command.
    ensures forall i :: 0 <= i < |calls| && calls[i].Dispatch? ==> i == 1 && IsPipelineCommand(request, env)
  {
    response := Response(200, "OK");
    calls := [];
    if request.httpMethod != "POST" {
      return;
    }
    // try {
    if request.body.None? {
      return;
    }
    var message := request.body.value.message;
    if message.None? || IsFalsyText(message.value.text) {
      return;
    }
    // `message.chat.id` and `message.from.id` throw on a missing object.
    if message.value.chat.None? || message.value.from.None? {
      return;
    }
    var chatId := message.value.chat.value.id;
    var userId := ToJsString(message.value.from.value.id);
    var text := message.value.text.value;

    if userId != ToJsString(env.allowedTelegramUserId) {
      // Resolved or rejected, the handler answers 200 next.
      calls := calls + [SendTelegram(env.telegramBotToken, chatId, UnauthorizedTextAsWritten)];
      UnauthorizedAsWrittenIsMalformed();
      return;
    }

    if StartsWith(text, StartCommand) {
      calls := calls + [SendTelegram(env.telegramBotToken, chatId, WelcomeText)];
      return;
    }

    calls := calls + [SendTelegram(env.telegramBotToken, chatId, AckText)];
    if 0 in net.rejectedSends {
      return;
    }

    calls := calls + [DispatchCall(env, text, chatId)];
    match net.dispatch
    case DispatchRejected =>
      return;
    case Replied(status, body) =>
      if !IsOk(status) {
        match body
        case ReadRejected =>
          return;
        case Read(errBody) =>
          calls := calls + [SendTelegram(env.telegramBotToken, chatId, FailureNotice(status, errBody))];
      }
  }

  // ---- What the messages read as in MarkdownV2 ----

  /** The status code is rendered with digits only, which MarkdownV2 leaves alone. */
  lemma StatusIsPlain(status: nat)
    ensures MarkdownV2.NoReserved(Decimal(status))
  {
    var d := Decimal(status);
    forall i | 0 <= i < |d| ensures !MarkdownV2.IsReserved(d[i]) {
      assert IsDigit(d[i]);
    }
  }

  /** Plain text followed by one escaped reserved character reads as the text and the character. */
  lemma PlainThenEscaped(p: string, c: char)
    requires MarkdownV2.NoReserved(p) && MarkdownV2.IsReserved(c)
    ensures MarkdownV2.Unescape(p + ['\\', c]) == Some(p + [c])
  {
    MarkdownV2.UnescapePlain(p);
    MarkdownV2.UnescapeEscaped(c);
    MarkdownV2.UnescapeAppend(p, ['\\', c], p, [c]);
  }

  /** The head of the failure notice reads as the status between plain parentheses. */
  lemma FailureHeadReadsBack(status: nat)
    ensures MarkdownV2.Unescape(FailureHead(status)) == Some("❌ GitHub dispatch failed (" + Decimal(status) + "): ")
  {
    var p, d := "❌ GitHub dispatch failed ", Decimal(status);
    var opening, closing := p + ['\\', '('], ['\\', ')'] + ": ";
    assert FailureHead(status) == opening + d + closing by {
      assert FailureOpening == opening;
      assert FailureClosing == closing;
    }
    assert MarkdownV2.NoReserved(p);
    assert p + ['('] == "❌ GitHub dispatch failed (";
    assert [')'] + ": " == "): ";
    PlainThenEscaped(p, '(');
    MarkdownV2.UnescapeEscaped(')');
    MarkdownV2.UnescapePlain(": ");
    MarkdownV2.UnescapeAppend(['\\', ')'], ": ", [')'], ": ");
    StatusIsPlain(status);
    MarkdownV2.UnescapePlain(d);
    MarkdownV2.UnescapeAppend(opening, d, p + ['('], d);
    MarkdownV2.UnescapeAppend(opening + d, closing, p + ['('] + d, "): ");
  }

  /**
    The failure notice is well-formed MarkdownV2 and reads as the status code
    followed by the first (at most 200) characters of the error body, verbatim.
  */
  lemma FailureNoticeReadsBack(status: nat, errBody: string)
    ensures MarkdownV2.Unescape(FailureNotice(status, errBody))
            == Some("❌ GitHub dispatch failed (" + Decimal(status) + "): " + Slice(errBody, ErrorBodyLimit))
  {
    var head, notice := FailureHead(status), FailureNotice(status, errBody);
    var tail := notice[|head|..];
    assert notice == head + tail;
    FailureHeadReadsBack(status);
    MarkdownV2.UnescapeAppend(head, tail, "❌ GitHub dispatch failed (" + Decimal(status) + "): ",
                              Slice(errBody, ErrorBodyLimit));
  }

  /**
    The unauthorised reply as written ends in a period with no backslash before
    it, so it is not well-formed MarkdownV2.
  */
  lemma UnauthorizedAsWrittenIsMalformed()
    ensures var t := UnauthorizedTextAsWritten; t[|t| - 1] == '.' && t[|t| - 2] != '\\'
    ensures MarkdownV2.Unescape(UnauthorizedTextAsWritten).None?
  {
    MarkdownV2.UnescapeUnescapedEnd(UnauthorizedTextAsWritten);
  }

  /** The corrected unauthorised reply is well-formed and reads as intended. */
  lemma UnauthorizedReadsBack()
    ensures MarkdownV2.Unescape(UnauthorizedText) == Some("⛔ Unauthorized user.")
  {
    var p := "⛔ Unauthorized user";
    assert MarkdownV2.NoReserved(p);
    PlainThenEscaped(p, '.');
    assert UnauthorizedText == p + ['\\', '.'];
    assert p + ['.'] == "⛔ Unauthorized user.";
  }

  /** The first two lines of the welcome reply, piece by piece. */
  lemma WelcomeOpening()
    ensures ("👋 DevOps Bot ready" + ['\\', '!']) + "\n\nSend me a message" + " and I'll trigger"
            == "👋 DevOps Bot ready\\!\n\nSend me a message and I'll trigger"
  {
    assert "👋 DevOps Bot ready" + ['\\', '!'] == "👋 DevOps Bot ready\\!";
    assert "👋 DevOps Bot ready\\!" + "\n\nSend me a message" == "👋 DevOps Bot ready\\!\n\nSend me a message";
  }

  /** The welcome reply split into plain runs and escaped characters. */
  lemma WelcomePieces()
    ensures WelcomeText
            == ("👋 DevOps Bot ready" + ['\\', '!']) + "\n\nSend me a message" + " and I'll trigger"
               + (" a CI/CD pipeline" + ['\\', '.'])
  {
    WelcomeOpening();
    assert " a CI/CD pipeline" + ['\\', '.'] == " a CI/CD pipeline\\.";
    assert "👋 DevOps Bot ready\\!\n\nSend me a message and I'll trigger" + " a CI/CD pipeline\\." == WelcomeText;
  }

  /** What the first two lines of the welcome reply read as. */
  lemma WelcomeOpeningReading()
    ensures ("👋 DevOps Bot ready" + ['!']) + "\n\nSend me a message" + " and I'll trigger"
            == "👋 DevOps Bot ready!\n\nSend me a message and I'll trigger"
  {
    assert "👋 DevOps Bot ready" + ['!'] == "👋 DevOps Bot ready!";
    assert "👋 DevOps Bot ready!" + "\n\nSend me a message" == "👋 DevOps Bot ready!\n\nSend me a message";
  }

  /** What the welcome reply's pieces read as, put together. */
  lemma WelcomeReading()
    ensures ("👋 DevOps Bot ready" + ['!']) + "\n\nSend me a message" + " and I'll trigger" + (" a CI/CD pipeline" + ['.'])
            == "👋 DevOps Bot ready!\n\nSend me a message and I'll trigger a CI/CD pipeline."
  {
    WelcomeOpeningReading();
    assert " a CI/CD pipeline" + ['.'] == " a CI/CD pipeline.";
    assert "👋 DevOps Bot ready!\n\nSend me a message and I'll trigger" + " a CI/CD pipeline."
           == "👋 DevOps Bot ready!\n\nSend me a message and I'll trigger a CI/CD pipeline.";
  }

  /** The welcome reply is well-formed and reads as intended. */
  lemma WelcomeReadsBack()
    ensures MarkdownV2.Unescape(WelcomeText)
            == Some("👋 DevOps Bot ready!\n\nSend me a message and I'll trigger a CI/CD pipeline.")
  {
    var p1, p2, p3, p4 := "👋 DevOps Bot ready", "\n\nSend me a message", " and I'll trigger", " a CI/CD pipeline";
    WelcomePieces();
    WelcomeReading();
    assert MarkdownV2.NoReserved(p1) && MarkdownV2.NoReserved(p2);
    assert MarkdownV2.NoReserved(p3) && MarkdownV2.NoReserved(p4);
    var e1, e4 := p1 + ['\\', '!'], p4 + ['\\', '.'];
    var r1, r4 := p1 + ['!'], p4 + ['.'];
    PlainThenEscaped(p1, '!');
    MarkdownV2.UnescapePlain(p2);
    MarkdownV2.UnescapePlain(p3);
    PlainThenEscaped(p4, '.');
    MarkdownV2.UnescapeAppend(e1, p2, r1, p2);
    MarkdownV2.UnescapeAppend(e1 + p2, p3, r1 + p2, p3);
    MarkdownV2.UnescapeAppend(e1 + p2 + p3, e4, r1 + p2 + p3, r4);
  }

  /** The acknowledgement split into plain runs and escaped characters, and what those read as. */
  lemma AckPieces()
    ensures AckText == ("⏳ Got it" + ['\\', '!']) + (" Triggering pipeline" + ['\\', '.']) + ['\\', '.'] + ['\\', '.']
    ensures ("⏳ Got it" + ['!']) + (" Triggering pipeline" + ['.']) + ['.'] + ['.'] == "⏳ Got it! Triggering pipeline..."
  {
    assert "⏳ Got it" + ['\\', '!'] == "⏳ Got it\\!";
    assert " Triggering pipeline" + ['\\', '.'] == " Triggering pipeline\\.";
    assert "⏳ Got it\\!" + " Triggering pipeline\\." == "⏳ Got it\\! Triggering pipeline\\.";
    assert "⏳ Got it" + ['!'] == "⏳ Got it!";
    assert " Triggering pipeline" + ['.'] == " Triggering pipeline.";
    assert "⏳ Got it!" + " Triggering pipeline." == "⏳ Got it! Triggering pipeline.";
  }

  /** The acknowledgement is well-formed and reads as intended. */
  lemma AckReadsBack()
    ensures MarkdownV2.Unescape(AckText) == Some("⏳ Got it! Triggering pipeline...")
  {
    var p1, p2 := "⏳ Got it", " Triggering pipeline";
    AckPieces();
    assert MarkdownV2.NoReserved(p1) && MarkdownV2.NoReserved(p2);
    var e1, e2, dot := p1 + ['\\', '!'], p2 + ['\\', '.'], ['\\', '.'];
    var r1, r2 := p1 + ['!'], p2 + ['.'];
    PlainThenEscaped(p1, '!');
    PlainThenEscaped(p2, '.');
    MarkdownV2.UnescapeEscaped('.');
    MarkdownV2.UnescapeAppend(e1, e2, r1, r2);
    MarkdownV2.UnescapeAppend(e1 + e2, dot, r1 + r2, ['.']);
    MarkdownV2.UnescapeAppend(e1 + e2 + dot, dot, r1 + r2 + ['.'], ['.']);
  }
}
