# Discord Interactions adapter — a Dafny model

This project models the Discord platform adapter of a stock-analysis chat bot
(`DiscordPlatform` in `bot/platforms/discord.py`). The adapter sits between the
HTTP webhook endpoint and the bot's command handlers, and does four things:

* **Request authentication** (`verify_request`). It checks the Ed25519 signature
  that Discord sends in `X-Signature-Ed25519` over the bytes of
  `X-Signature-Timestamp` followed by the raw body. The key is the application's
  public key, given in hex. When the adapter has no usable key, every request passes.
* **Event parsing** (`parse_message`). It turns an application-command
  interaction (`type == 2`) into the canonical `BotMessage`. The message holds the
  command text `/name arg …`, the actor (`member.user` before `user`) and the
  conversation (channel before guild). Every other interaction type is dropped.
* **Response formatting** (`format_response`). It wraps a reply in the
  CHANNEL_MESSAGE_WITH_SOURCE envelope `{type: 4, data: {content, flags: 0}}`.
* **Handshake** (`handle_challenge`). It answers a PING (`type == 1`) with a PONG `{type: 1}`.

Every operation is a pure function of the adapter's configuration and its input.

## Layout

| file | module | contents |
|---|---|---|
| `wrappers.dfy` | `Wrappers` | `Option`, `Result` |
| `bytes.dfy` | `Bytes` | the `byte` type |
| `text.dfy` | `Text` | `str.join`, `str.split`, `str()` of integers, with round trips |
| `hex.dfy` | `Hex` | `bytes.fromhex` and `bytes.hex`, with round trip and soundness |
| `utf8.dfy` | `Utf8` | `str.encode()` (UTF-8) and a decoder that inverts it |
| `json.dfy` | `Json` | the decoded payload, `dict.get`, truthiness, `==`, `str()` |
| `discord.dfy` | `Discord` | the adapter: key state, `VerifyRequest`, `ParseMessage`, `FormatResponse`, `HandleChallenge` |
| `discord_properties.dfy` | `DiscordProperties` | configuration and authentication properties |
| `interaction_properties.dfy` | `InteractionProperties` | parsing, formatting and handshake properties |
| `examples.dfy` | `InteractionExamples` | concrete interactions and their results |

## Modelling decisions

* The payload is a `Json` value: `Null | Bool | Int | Str | Arr | Obj`. Python
  truthiness (`or`, `if options:`) is the `Truthy` predicate. Python `==` against
  an integer is `EqualsInt`. Under it `True == 1`, so `{"type": true}` counts as a PING.
* Where the code calls `.get` on a value that is not a dict, the model returns
  `Err(AttributeError)`: for the `data` record, `member`, the resolved user and
  each option. Iterating a truthy `options` that is not a list gives
  `Err(AttributeError)` for a string or dict and `Err(TypeError)` for an int or
  bool. In the code these are the exceptions `parse_message` lets escape.
* Values copied from the payload keep their JSON shape in `BotMessage`. This
  covers the message id, user id, username and chat id. Python does not coerce them to strings.
* Key state is `Disabled | Active(key)`. An absent or empty key string is
  `Disabled`. So is a key that `bytes.fromhex` rejects or that is not 32 bytes:
  the code logs a warning and runs without a key.
* Ed25519's curve arithmetic is the function parameter `check`. `Ed25519Verify`
  adds the 64-octet signature length of section 5.1.7 of RFC 8032.
* `bytes.fromhex` is modelled as CPython implements it. It accepts hex digits in
  either case, as in section 8 of RFC 4648. It skips ASCII whitespace between
  two-digit groups, but not inside a group.
* `timestamp.encode()` is real UTF-8 (RFC 3629).
* A missing header and an empty header are both read as `""`. Both are falsy,
  and the code only tests the header's truthiness.
* Behaviour followed as the code does it, though a reader might expect otherwise:
  * Header lookup is not case-insensitive. It reads the all-lower-case spelling
    first, then only the canonical `X-Signature-…` spelling (`UpperCaseHeaderIgnored`).
  * An option's token is `str(option.get("value", ""))`. A null value gives
    `None` and `0` gives `0`. Among falsy values, only a missing `value` or `""` gives the empty token.
  * Parsing raises on wrongly typed records instead of being total.
  * A malformed key is not a separate "misconfigured" state. It is the same as no key.

## Model

| member | source | states |
|---|---|---|
| Discord.KeyStateOf | bot/platforms/discord.py:36-43 | an active key only comes from a non-empty key string that `bytes.fromhex` decodes to exactly that key of 32 bytes, and it re-encodes to that string's digits; every such string, in any hex spelling, gives exactly its decoded key; no key or an empty one is disabled |
| Discord.NewPlatform | bot/platforms/discord.py:29-43 | the adapter keeps the configured key text, and holds an active key exactly when that text is non-empty and decodes to 32 bytes, the key being those bytes |
| DiscordProperties.ConfiguredKeyIsActive | bot/platforms/discord.py:39-41 | a 32-byte key configured as its hex spelling becomes the active key unchanged |
| DiscordProperties.KeyWithTrailingNewline | bot/platforms/discord.py:39-41 | a 32-byte key written in hex and followed by a newline still becomes the active key |
| DiscordProperties.MalformedKeyAcceptsEverything | bot/platforms/discord.py:39-43 | key text that is not hex or not 32 bytes disables verification, and then every request passes, headers or not |
| Discord.HeaderValue | bot/platforms/discord.py:70-71 | the header value is the lower-case spelling when that is non-empty, else the canonical spelling, else empty; a non-empty value always comes from one of the two |
| Discord.SignedMessage | bot/platforms/discord.py:81 | the signed bytes end with the body unchanged and the rest decodes back to the timestamp |
| Discord.VerifyRequest | bot/platforms/discord.py:50-90 | disabled: always true; active: false when either header is empty, and otherwise true exactly when the signature header is hex and Ed25519 accepts it over timestamp and body |
| DiscordProperties.SignedRequestAccepted | bot/platforms/discord.py:70-84 | a genuine signature of timestamp and body is accepted, whatever hex spelling the key and the signature use, under the lower-case header or, when that is missing or empty, the canonical one |
| DiscordProperties.AcceptedRequestIsSigned | bot/platforms/discord.py:76-90 | an accepted request has a timestamp, and its signature header spells a 64-byte signature that Ed25519 accepts over the timestamp's UTF-8 bytes followed by the body |
| DiscordProperties.UpperCaseHeaderIgnored | bot/platforms/discord.py:70-78 | an all-upper-case signature header is not found, so the request is rejected |
| DiscordProperties.ChangedBodyRejected | bot/platforms/discord.py:80-87 | if the scheme binds a signature to one message, the same headers with a different body are rejected |
| DiscordProperties.ChangedSignatureRejected | bot/platforms/discord.py:80-87 | if the scheme admits one signature per message, any other signature over the same timestamp and body is rejected |
| DiscordProperties.ChangedTimestampRejected | bot/platforms/discord.py:80-87 | if the scheme binds a signature to one message, the same body with a different timestamp is rejected |
| Hex.FromHex | bot/platforms/discord.py:82 | a decoded string held only hex digits and whitespace, and gives at most one byte per two characters |
| Hex.FromHexToHex | bot/platforms/discord.py:41 | decoding the lower-case hex of any bytes gives the bytes back |
| Hex.FromHexSound | bot/platforms/discord.py:82 | whatever is accepted re-encodes to the input's digits without whitespace, in lower case |
| Hex.FromHexConcat | bot/platforms/discord.py:82 | text that decodes followed by any other text decodes exactly when the rest does, to the two parts' bytes in order |
| Hex.SpaceBetweenPairsSkipped | bot/platforms/discord.py:82 | a whitespace character placed after any prefix that decodes changes nothing |
| Hex.SpaceInsidePairRejected | bot/platforms/discord.py:82 | whitespace right after the first digit of a pair is rejected, wherever the pair starts |
| Hex.FromHexComplete | bot/platforms/discord.py:82 | every even-length run of hex digits is accepted, with one byte per pair |
| Hex.FromHexRejectsOdd | bot/platforms/discord.py:82 | without whitespace, an odd number of characters is rejected |
| Utf8.Encode | bot/platforms/discord.py:81 | the encoding has between one and four bytes per character |
| Utf8.DecodeEncodeChar | bot/platforms/discord.py:81 | the decoder reads back each encoded code point and its length, whatever follows it |
| Utf8.DecodeEncode | bot/platforms/discord.py:81 | decoding the encoding of a timestamp gives it back, so distinct timestamps sign distinct bytes |
| Utf8.EncodeAscii | bot/platforms/discord.py:81 | an ASCII timestamp encodes to one byte per character, its code |
| Json.Or | bot/platforms/discord.py:143 | `a or b` is `a` when `a` is truthy and `b` otherwise, so it is truthy exactly when either operand is |
| Json.ToStrHasNoSpace | bot/platforms/discord.py:123 | `str()` of a scalar has no space unless it is a string that has one |
| Text.JoinEnds | bot/platforms/discord.py:125 | the joined arguments start with the first argument and end with the last |
| Text.SplitJoin | bot/platforms/discord.py:125 | splitting the space-joined arguments gives them back when none contains a space |
| Text.NatToDecimal | bot/platforms/discord.py:123 | `str()` of a natural number is non-empty decimal digits with no leading zero |
| Text.DecimalRoundTrip | bot/platforms/discord.py:123 | reading back the printed digits of a number gives the number |
| Text.IntToDecimalInjective | bot/platforms/discord.py:123 | distinct integer option values print as distinct tokens |
| Discord.OptionTokens | bot/platforms/discord.py:121-123 | one token per option, in order, each `str()` of its value or of `""`; it fails exactly when an option is not a dict |
| Discord.CommandContent | bot/platforms/discord.py:117-125 | the text starts with `/` and the command name; with falsy options it is exactly `/name`; with truthy options it succeeds only for a list of dicts, and is then `/name`, a space and the option tokens joined by spaces |
| Discord.ParseMessage | bot/platforms/discord.py:92-152 | every type other than 2 gives no message; a message has platform `discord`, starts with `/`, has raw content equal to content, no mentions, the untouched payload and the id or `""`; its content is the command text of the `data` record's name and options |
| InteractionProperties.ParseFailsExactlyWhenMalformed | bot/platforms/discord.py:102-130 | parsing fails exactly when an application command has a record of the wrong shape; otherwise a command always yields a message |
| InteractionProperties.CommandContentSplits | bot/platforms/discord.py:113-125 | splitting the command text on spaces gives `/name` and then each option's token in order, when none has a space |
| InteractionProperties.ActorResolution | bot/platforms/discord.py:128-130 | the actor is `member.user`, else `user`, else empty; the id defaults to `""` and the username to `unknown` |
| InteractionProperties.ScopeResolution | bot/platforms/discord.py:133-144 | the chat is the channel if truthy, else the guild's value when the key is present (even if falsy), else `""`; it is a group exactly when the guild is truthy; the chat id is set whenever either scope is |
| Discord.FormatResponse | bot/platforms/discord.py:154-174 | always a success whose body has exactly `type` 4 and `data` with exactly `content` and `flags` 0 |
| InteractionProperties.FormatCarriesReply | bot/platforms/discord.py:166-172 | the envelope's content is the reply's text, else its string form, and does not depend on the message answered |
| Discord.HandleChallenge | bot/platforms/discord.py:176-194 | a PONG success exactly when the type equals 1, otherwise nothing |
| InteractionProperties.ChallengeExcludesMessage | bot/platforms/discord.py:102-106 | a payload the handshake answers never becomes a message, and a message is never produced for one |
| InteractionExamples.PingCommand | bot/platforms/discord.py:113-144 | `/ping` without options, channel or guild is a private message with content `/ping` by `unknown` |
| InteractionExamples.PriceCommandInGuild | bot/platforms/discord.py:113-144 | `/price AAPL` in guild `g1`, channel `c1`, is a group message in `c1` from the member's user |
| InteractionExamples.OptionValuesStringified | bot/platforms/discord.py:119-125 | options valued `-5`, null and missing give the text `/price -5 None ` |
| InteractionExamples.NonDictOptionFails | bot/platforms/discord.py:119-123 | a string inside the option list raises AttributeError, and an int in place of the list raises TypeError |
| InteractionExamples.Handshakes | bot/platforms/discord.py:188-194 | `{type: 1}` and `{type: true}` get the PONG; `{type: 2}` and a payload without a type do not |
| InteractionExamples.HelloReply | bot/platforms/discord.py:166-174 | a reply with text `hello` becomes `{type: 4, data: {content: "hello", flags: 0}}` |

`platform_name` (bot/platforms/discord.py:45-48) is the constant `Discord.Name`.
`ParseMessage` states that every message's platform equals it.

Some definitions carry Python's meaning directly. They have no contract of their
own and are pinned down by the rows above that use them:

* `Json.Get` is `dict.get(key, default)` (bot/platforms/discord.py:102, 113-115,
  128-134, 140). `OptionTokens`, `ActorResolution` and `ScopeResolution` state
  what the lookups give.
* `Json.ToStr` is `str()` of a payload value (bot/platforms/discord.py:123): a
  string as itself, an int in decimal, `True`/`False`/`None` by name, a list or
  dict by the `container` rendering. An int is printed by `Text.IntToDecimal`,
  a `-` before the digits of a negative number. `Text.NatToDecimal`,
  `Text.DecimalRoundTrip`, `Text.IntToDecimalInjective` and
  `Json.ToStrHasNoSpace` pin it down.
* `Text.Join` is `' '.join(args)` (bot/platforms/discord.py:125). `Text.JoinEnds`
  states how the joined text begins and ends, and `Text.SplitJoin` that
  splitting it gives the parts back.
* `Json.Truthy` is Python truthiness: null, `False`, `0`, `""`, `[]` and `{}`
  are falsy (bot/platforms/discord.py:119, 143-144). `Json.Or`, `CommandContent`
  and `ScopeResolution` state what follows from it.
* `Json.EqualsInt` is Python `==` against an int, under which `True == 1` and
  `False == 0` (bot/platforms/discord.py:105, 109, 188). `HandleChallenge`,
  `ParseMessage` and `Handshakes` state its consequences.
* `Discord.Ed25519Verify` is `VerifyKey.verify` (bot/platforms/discord.py:82): the
  signature must have 64 bytes and the curve check `check` must accept it.
  `VerifyRequest` is stated in terms of it.
* `Discord.ReplyContent` is the envelope's content, `response.text` when the
  reply has one and `str(response)` otherwise (bot/platforms/discord.py:169).
  `FormatCarriesReply` states that the envelope carries it.
* `Text.Split` cuts a text at every occurrence of one character. It is the
  reference inverse of `Text.Join`: `Text.SplitJoin` and `CommandContentSplits`
  relate the two.

## Left out

- Logging, including the truncated-signature and timestamp log lines (bot/platforms/discord.py:43, 64, 67, 73-74, 77, 83, 86, 89, 189). It is observability only and does not affect any result.
- Ed25519 curve arithmetic and the `nacl` `VerifyKey` internals. Verification is the abstract parameter `check`, and only the 32-byte key and 64-byte signature lengths are modelled.
- Python floats in the payload. `1.0 == 1` in Python, so a float type `1.0` would also be a PING; floating point is not modelled.
- Json.ToStr: for lists and dicts it is the caller-supplied `container` rendering, because Python's repr (quote choice, escapes, dict insertion order) is not modelled. Only scalars are stringified concretely.
- Discord.HeaderValue: a missing header is read as `""`, not Python's `None`. Both are falsy, and the code only tests truthiness before using the value.
- Strings that contain lone surrogates. A Dafny `char` cannot hold one. In Python, encoding one raises inside the `try` and the request is rejected.
- The base class `BotPlatform` (bot/platforms/base.py is not part of this model). The same goes for the internals of `BotMessage`, `WebhookResponse` and `ChatType` (bot/models.py is not part of this model). Only the constructor fields used here are mirrored.
- The `public_key` attribute is kept as `Platform.publicKey` but nothing reads it.
- The request pipeline that calls the adapter: the HTTP server, the platform registry and the command dispatch. That code is not part of this model.
- A payload that is not a dict at all. `ParseMessage` takes a map, so its type rules this out; in Python the first `.get` would raise.
- Concurrency. The adapter holds no mutable state, and every operation is a pure function.
- src/market_analyzer.py. It is network fetches, LLM calls and float-formatted reports, outside the adapter.
