/** The Discord Interactions webhook adapter: request authentication with
    Ed25519, slash-command parsing into the canonical `BotMessage`, the reply
    envelope and the PING/PONG handshake. Every operation is a function of the
    adapter's immutable configuration and its input. */
module Discord {
  import opened Wrappers
  import opened Bytes
  import opened Json
  import Hex
  import Utf8
  import Text

  /** The adapter's platform identifier. */
  const Name: string := "discord"

  /** Interaction types (the request's `type`). */
  const PingType: int := 1
  const ApplicationCommandType: int := 2

  /** Interaction response types. */
  const PongResponseType: int := 1
  const ChannelMessageWithSourceType: int := 4

  /** Message flags of a reply visible to everyone (64 would make it ephemeral). */
  const PublicFlags: int := 0

  /** Key and signature sizes of Ed25519 (section 5.1.5 and 5.1.6 of RFC 8032). */
  const PublicKeyLength: nat := 32
  const SignatureLength: nat := 64

  const SignatureHeader: string := "x-signature-ed25519"
  const SignatureHeaderCanonical: string := "X-Signature-Ed25519"
  const TimestampHeader: string := "x-signature-timestamp"
  const TimestampHeaderCanonical: string := "X-Signature-Timestamp"

  // ---------------------------------------------------------------------------
  // Configuration
  // ---------------------------------------------------------------------------

  /** The curve arithmetic of Ed25519 verification (section 5.1.7 of RFC 8032):
      does `signature` over `message` check out under the encoded public key?
      Left abstract; the model never looks inside it. */
  type Ed25519Check = (seq<byte>, seq<byte>, seq<byte>) -> bool

  /** Verification of RFC 8032, section 5.1.7: a signature that is not 64
      octets long is rejected before any curve arithmetic. */
  predicate Ed25519Verify(check: Ed25519Check, key: seq<byte>, message: seq<byte>, signature: seq<byte>)
  {
    |signature| == SignatureLength && check(key, message, signature)
  }

  /** Whether the adapter checks signatures: with the decoded public key, or
      not at all. */
  datatype KeyState = Disabled | Active(key: seq<byte>)

  /** A configured adapter: the public key as given and what it was turned into. */
  datatype Platform = Platform(publicKey: Option<string>, keyState: KeyState)

  /** The verification key a configured public key yields: `bytes.fromhex`
      must succeed and give exactly 32 bytes, or the key is dropped (`__init__`
      logs a warning and carries on without one). An absent or empty key
      string is not even decoded. */
  function KeyStateOf(publicKey: Option<string>): (k: KeyState)
    ensures k.Active? ==> publicKey.Some? && |k.key| == PublicKeyLength
    ensures k.Active? ==> Hex.FromHex(publicKey.value) == Some(k.key)
    ensures k.Active? ==> Hex.ToHex(k.key) == Hex.LowerHex(Hex.StripSpace(publicKey.value))
    ensures publicKey == None || publicKey == Some("") ==> k == Disabled
    ensures (publicKey.Some? && publicKey.value != "" && Hex.FromHex(publicKey.value).Some?
             && |Hex.FromHex(publicKey.value).value| == PublicKeyLength)
            ==> k == Active(Hex.FromHex(publicKey.value).value)
  {
    match publicKey
    case None => Disabled
    case Some(text) =>
      if text == "" then Disabled
      else match Hex.FromHex(text)
        case None => Disabled
        case Some(key) =>
          Hex.FromHexSound(text);
          if |key| == PublicKeyLength then Active(key) else Disabled
  }

  /** `DiscordPlatform(public_key)`. */
  function NewPlatform(publicKey: Option<string>): (p: Platform)
    ensures p.publicKey == publicKey
    ensures p.keyState.Active? <==>
      && publicKey.Some? && publicKey.value != ""
      && Hex.FromHex(publicKey.value).Some? && |Hex.FromHex(publicKey.value).value| == PublicKeyLength
    ensures p.keyState.Active? ==> Hex.FromHex(publicKey.value) == Some(p.keyState.key)
  {
    Platform(publicKey, KeyStateOf(publicKey))
  }

  // ---------------------------------------------------------------------------
  // Request authentication
  // ---------------------------------------------------------------------------

  /** `headers.get(lower) or headers.get(canonical)`, with a missing header
      read as "" (both are falsy and the caller only tests truthiness). Only
      these two spellings are looked up. */
  function HeaderValue(headers: map<string, string>, lower: string, canonical: string): (v: string)
    ensures v != "" ==> (lower in headers && headers[lower] == v) || (canonical in headers && headers[canonical] == v)
    ensures lower in headers && headers[lower] != "" ==> v == headers[lower]
    ensures (lower !in headers || headers[lower] == "") && canonical in headers ==> v == headers[canonical]
    ensures lower !in headers && canonical !in headers ==> v == ""
  {
    if lower in headers && headers[lower] != "" then headers[lower]
    else if canonical in headers then headers[canonical]
    else ""
  }

  function Signature(headers: map<string, string>): string
  {
    HeaderValue(headers, SignatureHeader, SignatureHeaderCanonical)
  }

  function Timestamp(headers: map<string, string>): string
  {
    HeaderValue(headers, TimestampHeader, TimestampHeaderCanonical)
  }

  /** The signed message: the timestamp's UTF-8 bytes followed by the raw body. */
  function SignedMessage(timestamp: string, body: seq<byte>): (m: seq<byte>)
    ensures |m| >= |body|
    ensures m[|m| - |body|..] == body
    ensures Utf8.Decode(m[..|m| - |body|]) == Some(timestamp)
  {
    var prefix := Utf8.Encode(timestamp);
    Utf8.DecodeEncode(timestamp);
    assert (prefix + body)[..|prefix|] == prefix;
    prefix + body
  }

  /** `verify_request(headers, body)`: true without a key; with one, true
      exactly when both headers are non-empty, the signature header is hex and
      the decoded signature verifies over timestamp and body. Never fails. */
  function VerifyRequest(p: Platform, check: Ed25519Check, headers: map<string, string>, body: seq<byte>): (ok: bool)
    ensures p.keyState.Disabled? ==> ok
    ensures p.keyState.Active? && (Signature(headers) == "" || Timestamp(headers) == "") ==> !ok
    ensures p.keyState.Active? && ok ==>
      && Hex.FromHex(Signature(headers)).Some?
      && Ed25519Verify(check, p.keyState.key, SignedMessage(Timestamp(headers), body), Hex.FromHex(Signature(headers)).value)
    ensures (p.keyState.Active? && Signature(headers) != "" && Timestamp(headers) != ""
      && Hex.FromHex(Signature(headers)).Some?
      && Ed25519Verify(check, p.keyState.key, SignedMessage(Timestamp(headers), body), Hex.FromHex(Signature(headers)).value)) ==> ok
  {
    match p.keyState
    case Disabled => true
    case Active(key) =>
      var signature := Signature(headers);
      var timestamp := Timestamp(headers);
      if signature == "" || timestamp == "" then false
      else
        var message := SignedMessage(timestamp, body);
        match Hex.FromHex(signature)
        case None => false
        case Some(sig) => Ed25519Verify(check, key, message, sig)
  }

  // ---------------------------------------------------------------------------
  // Event parsing
  // ---------------------------------------------------------------------------

  datatype ChatType = Private | Group

  /** The canonical inbound message, with the fields this adapter sets. Values
      copied from the payload keep their JSON shape, as Python does not coerce
      them to strings. */
  datatype BotMessage = BotMessage(
    platform: string,
    messageId: Json,
    userId: Json,
    userName: Json,
    chatId: Json,
    chatType: ChatType,
    content: string,
    rawContent: string,
    mentioned: bool,
    mentions: seq<string>,
    rawData: map<string, Json>)

  /** The Python exception that escapes `parse_message` on a payload of the
      wrong shape: `.get` on something that is not a dict, or iteration over
      something that is not iterable. */
  datatype Fault = AttributeError | TypeError

  /** The argument tokens of a command: `str(option.get("value", ""))` for each
      option in order; an option that is not a dict has no `.get`. */
  function OptionTokens(options: seq<Json>, container: ContainerText): (r: Result<seq<string>, Fault>)
    ensures r.Ok? <==> forall i :: 0 <= i < |options| ==> options[i].Obj?
    ensures r.Ok? ==> |r.value| == |options|
    ensures r.Ok? ==> forall i :: 0 <= i < |options| ==>
      r.value[i] == ToStr(Get(options[i].fields, "value", Str("")), container)
  {
    if |options| == 0 then Ok([])
    else if !options[0].Obj? then Err(AttributeError)
    else match OptionTokens(options[1..], container)
      case Err(f) => Err(f)
      case Ok(rest) => Ok([ToStr(Get(options[0].fields, "value", Str("")), container)] + rest)
  }

  /** The command text `/name`, followed by a space and the space-joined
      option tokens when `options` is truthy. A truthy `options` that is not a
      list fails: iterating a string or a dict yields strings, which have no
      `.get`; an int or a bool cannot be iterated at all. */
  function CommandContent(name: string, options: Json, container: ContainerText): (r: Result<string, Fault>)
    ensures r.Ok? ==> |r.value| >= |name| + 1 && r.value[0] == '/' && r.value[1..|name| + 1] == name
    ensures !Truthy(options) ==> r == Ok("/" + name)
    ensures Truthy(options) && r.Ok? ==>
      && options.Arr?
      && OptionTokens(options.items, container).Ok?
      && r.value == "/" + name + " " + Text.Join(" ", OptionTokens(options.items, container).value)
  {
    if !Truthy(options) then Ok("/" + name)
    else match options
      case Arr(items) =>
        (match OptionTokens(items, container)
         case Err(f) => Err(f)
         case Ok(tokens) => Ok("/" + name + " " + Text.Join(" ", tokens)))
      case Int(_) => Err(TypeError)
      case Bool(_) => Err(TypeError)
      case _ => Err(AttributeError)
  }

  /** `parse_message(data)`: None for every interaction type other than an
      application command (a ping included); otherwise the canonical message,
      or the exception a payload of the wrong shape raises. */
  function ParseMessage(data: map<string, Json>, container: ContainerText): (r: Result<Option<BotMessage>, Fault>)
    ensures !EqualsInt(Get(data, "type", Null), ApplicationCommandType) ==> r == Ok(None)
    ensures r.Ok? && r.value.Some? ==>
      var m := r.value.value;
      && m.platform == Name
      && |m.content| >= 1 && m.content[0] == '/'
      && m.rawContent == m.content
      && !m.mentioned && m.mentions == []
      && m.rawData == data
      && m.messageId == Get(data, "id", Str(""))
    ensures r.Ok? && r.value.Some? ==>
      var command := Get(data, "data", Obj(map[]));
      && command.Obj?
      && CommandContent(ToStr(Get(command.fields, "name", Str("")), container),
                        Get(command.fields, "options", Arr([])), container) == Ok(r.value.value.content)
  {
    var kind := Get(data, "type", Null);
    if EqualsInt(kind, PingType) then Ok(None)
    else if !EqualsInt(kind, ApplicationCommandType) then Ok(None)
    else
      var command := Get(data, "data", Obj(map[]));
      if !command.Obj? then Err(AttributeError)
      else
        var name := ToStr(Get(command.fields, "name", Str("")), container);
        var options := Get(command.fields, "options", Arr([]));
        match CommandContent(name, options, container)
        case Err(f) => Err(f)
        case Ok(content) =>
          var member := Get(data, "member", Obj(map[]));
          if !member.Obj? then Err(AttributeError)
          else
            var user := Get(member.fields, "user", Get(data, "user", Obj(map[])));
            if !user.Obj? then Err(AttributeError)
            else
              var channelId := Get(data, "channel_id", Str(""));
              var guildId := Get(data, "guild_id", Str(""));
              Ok(Some(BotMessage(
                platform := Name,
                messageId := Get(data, "id", Str("")),
                userId := Get(user.fields, "id", Str("")),
                userName := Get(user.fields, "username", Str("unknown")),
                chatId := Or(channelId, guildId),
                chatType := if Truthy(guildId) then Group else Private,
                content := content,
                rawContent := content,
                mentioned := false,
                mentions := [],
                rawData := data)))
  }

  // ---------------------------------------------------------------------------
  // Responses
  // ---------------------------------------------------------------------------

  /** The adapter's output: `WebhookResponse.success(body)`; the failure
      variant is never produced here. */
  datatype WebhookResponse = Success(body: Json) | Failure(error: string)

  /** What the command handler replied: an object with a `text` attribute, or
      any other object, given by its `str()`. */
  datatype Reply = WithText(text: Json) | Opaque(rendered: string)

  /** The text a reply contributes: `response.text` if it has one, else `str(response)`. */
  function ReplyContent(reply: Reply): Json
  {
    match reply
    case WithText(t) => t
    case Opaque(s) => Str(s)
  }

  /** `format_response(response, message)`: always a success carrying the
      CHANNEL_MESSAGE_WITH_SOURCE envelope with public flags. */
  function FormatResponse(reply: Reply, message: BotMessage): (r: WebhookResponse)
    ensures r.Success? && r.body.Obj?
    ensures r.body.fields.Keys == {"type", "data"}
    ensures r.body.fields["type"] == Int(ChannelMessageWithSourceType)
    ensures r.body.fields["data"].Obj?
    ensures r.body.fields["data"].fields.Keys == {"content", "flags"}
    ensures r.body.fields["data"].fields["flags"] == Int(PublicFlags)
  {
    Success(Obj(map[
      "type" := Int(ChannelMessageWithSourceType),
      "data" := Obj(map["content" := ReplyContent(reply), "flags" := Int(PublicFlags)])]))
  }

  /** `handle_challenge(data)`: the PONG reply to a PING, None for anything else. */
  function HandleChallenge(data: map<string, Json>): (r: Option<WebhookResponse>)
    ensures r.Some? <==> EqualsInt(Get(data, "type", Null), PingType)
    ensures r.Some? ==> r.value.Success? && r.value.body == Obj(map["type" := Int(PongResponseType)])
  {
    if EqualsInt(Get(data, "type", Null), PingType) then
      Some(Success(Obj(map["type" := Int(PongResponseType)])))
    else None
  }
}
