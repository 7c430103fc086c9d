/** Worked interactions: concrete payloads and what the adapter makes of them. */
module InteractionExamples {
  import opened Wrappers
  import opened Json
  import opened Discord
  import Text

  /** `/ping` with no options, outside any guild or channel. */
  function PingInteraction(): map<string, Json>
  {
    map["type" := Int(2), "data" := Obj(map["name" := Str("ping")])]
  }

  /** `/ping` with no options. */
  lemma PingCommand(container: ContainerText)
    ensures var r := ParseMessage(PingInteraction(), container);
      && r.Ok? && r.value.Some?
      && r.value.value.content == "/ping"
      && r.value.value.chatType == Private
      && r.value.value.chatId == Str("")
      && r.value.value.userName == Str("unknown")
  {
    var data := PingInteraction();
    var command := data["data"].fields;
    assert "options" !in command && "member" !in data && "user" !in data;
    assert "channel_id" !in data && "guild_id" !in data;
    assert ToStr(command["name"], container) == "ping";
    assert CommandContent("ping", Arr([]), container) == Ok("/ping") by {
      assert "/" + "ping" == "/ping";
    }
  }

  /** A `/price AAPL` command sent by a guild member in channel `c1`. */
  function PriceInteraction(): map<string, Json>
  {
    map[
      "type" := Int(2),
      "data" := Obj(map["name" := Str("price"), "options" := Arr([Obj(map["value" := Str("AAPL")])])]),
      "guild_id" := Str("g1"),
      "channel_id" := Str("c1"),
      "member" := Obj(map["user" := Obj(map["id" := Str("u1"), "username" := Str("ann")])])]
  }

  /** `/price AAPL` sent in a guild channel. */
  lemma PriceCommandInGuild(container: ContainerText)
    ensures var r := ParseMessage(PriceInteraction(), container);
      && r.Ok? && r.value.Some?
      && r.value.value.content == "/price AAPL"
      && r.value.value.chatId == Str("c1")
      && r.value.value.chatType == Group
      && r.value.value.userId == Str("u1")
  {
    var data := PriceInteraction();
    var command := data["data"].fields;
    var options := Arr([Obj(map["value" := Str("AAPL")])]);
    assert command["options"] == options;
    assert ToStr(command["name"], container) == "price";
    assert CommandContent("price", options, container) == Ok("/price AAPL") by {
      var t := OptionTokens(options.items, container);
      assert t.Ok? && |t.value| == 1 && t.value[0] == "AAPL";
      assert t.value == ["AAPL"];
      assert Text.Join(" ", ["AAPL"]) == "AAPL";
      assert "/" + "price" + " " + "AAPL" == "/price AAPL";
    }
  }

  /** Option values are stringified as Python does: an int by its digits, a
      null as `None`, and an option without a value as an empty token. */
  lemma OptionValuesStringified(container: ContainerText)
    ensures CommandContent("price", Arr([Obj(map["value" := Int(-5)]), Obj(map["value" := Null]), Obj(map[])]), container)
      == Ok("/price -5 None ")
  {
    var items := [Obj(map["value" := Int(-5)]), Obj(map["value" := Null]), Obj(map[])];
    StringifiedTokens(items, container);
    SpacedTokens();
    assert Truthy(Arr(items));
    assert "/" + "price" + " " + "-5 None " == "/price -5 None ";
  }

  lemma StringifiedTokens(items: seq<Json>, container: ContainerText)
    requires items == [Obj(map["value" := Int(-5)]), Obj(map["value" := Null]), Obj(map[])]
    ensures OptionTokens(items, container) == Ok(["-5", "None", ""])
  {
    assert Text.IntToDecimal(-5) == "-5" by {
      assert Text.NatToDecimal(5) == "5";
    }
    var t := OptionTokens(items, container);
    assert t.Ok? && |t.value| == 3;
    assert t.value[0] == "-5" && t.value[1] == "None" && t.value[2] == "";
    assert t.value == ["-5", "None", ""];
  }

  lemma SpacedTokens()
    ensures Text.Join(" ", ["-5", "None", ""]) == "-5 None "
  {
    assert ["-5", "None", ""][1..] == ["None", ""];
    assert ["None", ""][1..] == [""];
    assert Text.Join(" ", [""]) == "";
    assert Text.Join(" ", ["None", ""]) == "None" + " " + "";
  }

  /** An options list holding something other than a dict raises. */
  lemma NonDictOptionFails(container: ContainerText)
    ensures CommandContent("price", Arr([Str("AAPL")]), container) == Err(AttributeError)
    ensures CommandContent("price", Int(3), container) == Err(TypeError)
  {
  }

  /** The handshake answers `{type: 1}`, and also `{type: true}` since
      `True == 1`; a command gets no handshake reply. */
  lemma Handshakes()
    ensures HandleChallenge(map["type" := Int(1)]) == Some(Success(Obj(map["type" := Int(1)])))
    ensures HandleChallenge(map["type" := Bool(true)]) == Some(Success(Obj(map["type" := Int(1)])))
    ensures HandleChallenge(map["type" := Int(2)]) == None
    ensures HandleChallenge(map[]) == None
  {
  }

  /** A reply with text `hello` becomes the public channel-message envelope. */
  lemma HelloReply(message: BotMessage)
    ensures FormatResponse(WithText(Str("hello")), message)
      == Success(Obj(map["type" := Int(4), "data" := Obj(map["content" := Str("hello"), "flags" := Int(0)])]))
  {
  }
}
