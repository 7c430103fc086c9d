/** Properties of interaction parsing, reply formatting and the handshake,
    each against an independent statement of the rule it follows. */
module InteractionProperties {
  import opened Wrappers
  import opened Json
  import opened Discord
  import Text

  /** The payload is an application command (`type == 2`; `True` is 1, not 2). */
  predicate IsCommand(data: map<string, Json>)
  {
    EqualsInt(Get(data, "type", Null), ApplicationCommandType)
  }

  /** The command record, `{}` when absent. */
  function CommandRecord(data: map<string, Json>): Json
  {
    if "data" in data then data["data"] else Obj(map[])
  }

  /** The actor's record, by precedence: `member.user`, else the top-level
      `user`, else `{}`. */
  function UserRecord(data: map<string, Json>): Json
  {
    if "member" in data && data["member"].Obj? && "user" in data["member"].fields then data["member"].fields["user"]
    else if "user" in data then data["user"]
    else Obj(map[])
  }

  /** The option list is usable: absent or falsy, or a list of dicts. */
  predicate OptionsUsable(options: Json)
  {
    !Truthy(options) || (options.Arr? && forall i :: 0 <= i < |options.items| ==> options.items[i].Obj?)
  }

  /** Every record the parser calls `.get` on is a dict, and the options
      can be iterated into dicts. */
  predicate WellShaped(data: map<string, Json>)
  {
    && CommandRecord(data).Obj?
    && OptionsUsable(Get(CommandRecord(data).fields, "options", Arr([])))
    && ("member" in data ==> data["member"].Obj?)
    && UserRecord(data).Obj?
  }

  /** Parsing fails exactly on an application command of the wrong shape; any
      other interaction type is dropped without looking further. */
  lemma ParseFailsExactlyWhenMalformed(data: map<string, Json>, container: ContainerText)
    ensures ParseMessage(data, container).Err? <==> IsCommand(data) && !WellShaped(data)
    ensures !IsCommand(data) ==> ParseMessage(data, container) == Ok(None)
    ensures IsCommand(data) && WellShaped(data) ==> ParseMessage(data, container).Ok? && ParseMessage(data, container).value.Some?
  {
  }

  /** The actor comes from `member.user`, else `user`, with `""` and
      `"unknown"` standing in for a missing id and username. */
  lemma ActorResolution(data: map<string, Json>, container: ContainerText)
    requires ParseMessage(data, container).Ok? && ParseMessage(data, container).value.Some?
    ensures UserRecord(data).Obj?
    ensures ParseMessage(data, container).value.value.userId == Get(UserRecord(data).fields, "id", Str(""))
    ensures ParseMessage(data, container).value.value.userName == Get(UserRecord(data).fields, "username", Str("unknown"))
  {
  }

  /** The conversation is the channel when one is given, else the guild, else
      `""`; a message from a guild is a group message, any other private. */
  lemma ScopeResolution(data: map<string, Json>, container: ContainerText)
    requires ParseMessage(data, container).Ok? && ParseMessage(data, container).value.Some?
    ensures var m := ParseMessage(data, container).value.value;
      && (m.chatType == Group <==> "guild_id" in data && Truthy(data["guild_id"]))
      && ("channel_id" in data && Truthy(data["channel_id"]) ==> m.chatId == data["channel_id"])
      && (!Truthy(Get(data, "channel_id", Null)) ==> m.chatId == Get(data, "guild_id", Str("")))
      && (Truthy(m.chatId) <==> Truthy(Get(data, "channel_id", Null)) || Truthy(Get(data, "guild_id", Null)))
  {
  }

  /** A JSON value whose `str()` has no space in it, so that it survives
      being split back out of the command text. */
  predicate SpaceFree(v: Json)
  {
    !v.Arr? && !v.Obj? && (v.Str? ==> ' ' !in v.s)
  }

  /** The value an option contributes, `""` when it has none. */
  function OptionValue(option: Json): Json
    requires option.Obj?
  {
    Get(option.fields, "value", Str(""))
  }

  /** The command text is the inverse of a whitespace split: splitting it on
      spaces gives `/name` and then each option's token in the order given,
      as long as none of them contains a space. */
  lemma CommandContentSplits(name: string, options: Json, container: ContainerText)
    requires CommandContent(name, options, container).Ok?
    requires ' ' !in name
    requires options.Arr? ==> forall i :: 0 <= i < |options.items| ==> options.items[i].Obj? && SpaceFree(OptionValue(options.items[i]))
    ensures Truthy(options) ==> options.Arr?
    ensures !Truthy(options) ==> Text.Split(CommandContent(name, options, container).value, ' ') == ["/" + name]
    ensures Truthy(options) ==>
      Text.Split(CommandContent(name, options, container).value, ' ')
        == ["/" + name] + seq(|options.items|, i requires 0 <= i < |options.items| => ToStr(OptionValue(options.items[i]), container))
  {
    var head := "/" + name;
    if !Truthy(options) {
      Text.SplitNoSeparator(head, ' ');
    } else {
      var items := options.items;
      var tokens := OptionTokens(items, container).value;
      assert forall i :: 0 <= i < |tokens| ==> ' ' !in tokens[i] by {
        forall i | 0 <= i < |tokens|
          ensures ' ' !in tokens[i]
        {
          ToStrHasNoSpace(OptionValue(items[i]), container);
        }
      }
      Text.SplitJoin(tokens, ' ');
      Text.SplitPrefix(head, ' ', Text.Join(" ", tokens));
      assert CommandContent(name, options, container).value == head + [' '] + Text.Join(" ", tokens);
      assert tokens == seq(|items|, i requires 0 <= i < |items| => ToStr(OptionValue(items[i]), container));
    }
  }

  /** A PING is answered by the handshake and never becomes a message; a
      message is never produced for a payload the handshake answers. */
  lemma ChallengeExcludesMessage(data: map<string, Json>, container: ContainerText)
    ensures HandleChallenge(data).Some? ==> ParseMessage(data, container) == Ok(None)
    ensures ParseMessage(data, container).Ok? && ParseMessage(data, container).value.Some? ==> HandleChallenge(data) == None
  {
  }

  /** What Discord reads out of a reply envelope: `data.content`. */
  function EnvelopeContent(r: WebhookResponse): Option<Json>
  {
    if r.Success? && r.body.Obj? && "data" in r.body.fields && r.body.fields["data"].Obj?
      && "content" in r.body.fields["data"].fields
    then Some(r.body.fields["data"].fields["content"])
    else None
  }

  /** The envelope carries the reply's text (or its string form) and nothing
      about the message being answered. */
  lemma FormatCarriesReply(reply: Reply, message: BotMessage, other: BotMessage)
    ensures EnvelopeContent(FormatResponse(reply, message)) == Some(ReplyContent(reply))
    ensures reply.WithText? ==> EnvelopeContent(FormatResponse(reply, message)) == Some(reply.text)
    ensures reply.Opaque? ==> EnvelopeContent(FormatResponse(reply, message)) == Some(Str(reply.rendered))
    ensures FormatResponse(reply, message) == FormatResponse(reply, other)
  {
  }
}
