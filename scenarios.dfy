/**
  Concrete runs of the handler, derived from `Fetch`'s contract alone: the
  contract is strong enough to fix the whole trace for a given input.
*/
module Scenarios {

  import opened Options
  import opened JsValues
  import opened Worker
  import MarkdownV2

  const Config := Env(Text("42"), Text("bot-token"), Text("octo/infra"), Text("pat"))
  const BotUrl := "https://api.telegram.org/botbot-token/sendMessage"

  function TextUpdate(text: string, chatId: int, senderId: int): Request {
    Request("POST", Some(Update(Some(Message(Some(text), Some(Chat(Number(chatId))), Some(User(Number(senderId))))))))
  }

  /** The request reaches the sender check, from chat 1001. */
  lemma Addressed(text: string, senderId: int)
    requires text != ""
    ensures HasChatAndSender(TextUpdate(text, 1001, senderId))
    ensures ChatIdOf(TextUpdate(text, 1001, senderId)) == Number(1001)
    ensures TextOf(TextUpdate(text, 1001, senderId)) == text
  {
  }

  /** Text from the allowed sender that does not start with a slash triggers the pipeline. */
  lemma Commanded(text: string)
    requires text != "" && text[0] != '/'
    ensures IsPipelineCommand(TextUpdate(text, 1001, 42), Config)
    ensures ChatIdOf(TextUpdate(text, 1001, 42)) == Number(1001)
    ensures TextOf(TextUpdate(text, 1001, 42)) == text
  {
    Addressed(text, 42);
    assert Decimal(42) == "42";
    assert FromAllowedUser(TextUpdate(text, 1001, 42), Config);
    assert text[0] != StartCommand[0];
  }

  lemma SendsToConfiguredBot(text: string)
    ensures SendTelegram(Config.telegramBotToken, Number(1001), text) == SendMessage(BotUrl, Number(1001), text, "MarkdownV2")
  {
    assert "https://api.telegram.org/bot" + "bot-token" == "https://api.telegram.org/botbot-token";
    assert "https://api.telegram.org/botbot-token" + "/sendMessage" == BotUrl;
  }

  lemma DispatchesToConfiguredRepo(text: string)
    ensures DispatchCall(Config, text, Number(1001))
            == Dispatch("https://api.github.com/repos/octo/infra/dispatches", "token pat", "telegram-devops", text, "1001")
  {
    assert Decimal(1001) == "1001";
    assert "https://api.github.com/repos/" + "octo/infra" == "https://api.github.com/repos/octo/infra";
    assert "https://api.github.com/repos/octo/infra" + "/dispatches" == "https://api.github.com/repos/octo/infra/dispatches";
    assert "token " + "pat" == "token pat";
  }

  /** Sender 42 (allowed as the string "42") asks to deploy; GitHub accepts the dispatch. */
  method DeployHotfix() returns (response: Response, calls: seq<Call>)
    ensures response == Response(200, "OK")
    ensures calls == [
      SendMessage(BotUrl, Number(1001), AckText, "MarkdownV2"),
      Dispatch("https://api.github.com/repos/octo/infra/dispatches", "token pat", "telegram-devops", "deploy hotfix", "1001")
    ]
  {
    var request := TextUpdate("deploy hotfix", 1001, 42);
    Commanded("deploy hotfix");
    SendsToConfiguredBot(AckText);
    DispatchesToConfiguredRepo("deploy hotfix");
    response, calls := Fetch(request, Config, Network({}, Replied(204, Read(""))));
    assert |calls| == 2;
  }

  /** Sender 7 is not the allowed user: one notice, no dispatch. */
  method UnauthorisedSender() returns (response: Response, calls: seq<Call>)
    ensures response == Response(200, "OK")
    ensures calls == [SendMessage(BotUrl, Number(1001), UnauthorizedTextAsWritten, "MarkdownV2")]
    ensures MarkdownV2.Unescape(calls[0].text).None?
  {
    var request := TextUpdate("deploy hotfix", 1001, 7);
    Addressed("deploy hotfix", 7);
    assert Decimal(7) == "7";
    assert !FromAllowedUser(request, Config);
    SendsToConfiguredBot(UnauthorizedTextAsWritten);
    response, calls := Fetch(request, Config, Network({}, Replied(204, Read(""))));
  }

  /** `/start` is a prefix test: `/startfoo` also gets the welcome, even if GitHub would fail. */
  method StartPrefix() returns (response: Response, calls: seq<Call>)
    ensures response == Response(200, "OK")
    ensures calls == [SendMessage(BotUrl, Number(1001), WelcomeText, "MarkdownV2")]
  {
    var request := TextUpdate("/startfoo", 1001, 42);
    Addressed("/startfoo", 42);
    assert Decimal(42) == "42";
    assert FromAllowedUser(request, Config);
    assert "/startfoo"[..6] == StartCommand;
    SendsToConfiguredBot(WelcomeText);
    response, calls := Fetch(request, Config, Network({}, Replied(500, Read("boom"))));
  }

  /** GitHub answers 404, whatever its body: the acknowledgement, the dispatch, then the failure notice. */
  method DispatchNotFound(errBody: string) returns (response: Response, calls: seq<Call>)
    ensures response == Response(200, "OK")
    ensures calls == [
      SendMessage(BotUrl, Number(1001), AckText, "MarkdownV2"),
      Dispatch("https://api.github.com/repos/octo/infra/dispatches", "token pat", "telegram-devops", "deploy", "1001"),
      SendMessage(BotUrl, Number(1001), FailureNotice(404, errBody), "MarkdownV2")
    ]
  {
    var request := TextUpdate("deploy", 1001, 42);
    Commanded("deploy");
    SendsToConfiguredBot(AckText);
    DispatchesToConfiguredRepo("deploy");
    SendsToConfiguredBot(FailureNotice(404, errBody));
    response, calls := Fetch(request, Config, Network({}, Replied(404, Read(errBody))));
    assert |calls| == 3;
  }

  /** The acknowledgement's fetch rejects: the handler stops before dispatching. */
  method AckRejected() returns (response: Response, calls: seq<Call>)
    ensures response == Response(200, "OK")
    ensures calls == [SendMessage(BotUrl, Number(1001), AckText, "MarkdownV2")]
  {
    var request := TextUpdate("deploy", 1001, 42);
    Commanded("deploy");
    SendsToConfiguredBot(AckText);
    response, calls := Fetch(request, Config, Network({0}, Replied(204, Read(""))));
  }

  /** An update whose message text is empty is ignored. */
  method EmptyText() returns (response: Response, calls: seq<Call>)
    ensures response == Response(200, "OK") && calls == []
  {
    response, calls := Fetch(TextUpdate("", 1001, 42), Config, Network({}, Replied(204, Read(""))));
  }
}
