/** Properties of the Discord adapter that relate several calls, or a call to
    an independent statement of what it should do. */
module DiscordProperties {
  import opened Wrappers
  import opened Bytes
  import opened Discord
  import Hex
  import Utf8

  // ---------------------------------------------------------------------------
  // Configuration
  // ---------------------------------------------------------------------------

  /** A 32-byte key configured in its canonical hex spelling is taken as is. */
  lemma ConfiguredKeyIsActive(key: seq<byte>)
    requires |key| == PublicKeyLength
    ensures NewPlatform(Some(Hex.ToHex(key))).keyState == Active(key)
  {
    Hex.FromHexToHex(key);
  }

  /** A key with a trailing newline, as read from a configuration file,
      still decodes: whitespace after the last digit pair is skipped. */
  lemma KeyWithTrailingNewline(key: seq<byte>)
    requires |key| == PublicKeyLength
    ensures NewPlatform(Some(Hex.ToHex(key) + "\n")).keyState == Active(key)
  {
    Hex.FromHexToHex(key);
    Hex.SpaceBetweenPairsSkipped(Hex.ToHex(key), '\n', "");
    assert Hex.ToHex(key) + ['\n'] + "" == Hex.ToHex(key) + "\n";
    assert Hex.ToHex(key) + "" == Hex.ToHex(key);
  }

  /** Key material that is not hex, or not 32 bytes, silently disables
      verification: every request is then accepted, headers or not. */
  lemma MalformedKeyAcceptsEverything(publicKey: string, check: Ed25519Check, headers: map<string, string>, body: seq<byte>)
    requires Hex.FromHex(publicKey).None? || |Hex.FromHex(publicKey).value| != PublicKeyLength
    ensures NewPlatform(Some(publicKey)).keyState == Disabled
    ensures VerifyRequest(NewPlatform(Some(publicKey)), check, headers, body)
  {
  }

  // ---------------------------------------------------------------------------
  // Request authentication
  // ---------------------------------------------------------------------------

  /** A request carrying a genuine signature of `timestamp ++ body` is
      accepted, whatever hex spelling the key and the signature use (either
      case, whitespace between digit pairs) and under either accepted spelling
      of each header, including an empty lower-case header beside a filled
      canonical one. */
  lemma SignedRequestAccepted(keyText: string, key: seq<byte>, check: Ed25519Check, sigText: string, sig: seq<byte>,
                              timestamp: string, body: seq<byte>, headers: map<string, string>)
    requires Hex.FromHex(keyText) == Some(key) && |key| == PublicKeyLength
    requires Hex.FromHex(sigText) == Some(sig) && |sig| == SignatureLength
    requires check(key, Utf8.Encode(timestamp) + body, sig)
    requires timestamp != ""
    requires (SignatureHeader in headers && headers[SignatureHeader] == sigText)
          || ((SignatureHeader !in headers || headers[SignatureHeader] == "")
              && SignatureHeaderCanonical in headers && headers[SignatureHeaderCanonical] == sigText)
    requires (TimestampHeader in headers && headers[TimestampHeader] == timestamp)
          || ((TimestampHeader !in headers || headers[TimestampHeader] == "")
              && TimestampHeaderCanonical in headers && headers[TimestampHeaderCanonical] == timestamp)
    ensures VerifyRequest(NewPlatform(Some(keyText)), check, headers, body)
  {
  }

  /** An accepted request, under an active key, carries a non-empty timestamp
      and a signature whose hex digits (whitespace aside, in any case) spell a
      64-byte Ed25519 signature of exactly the timestamp's UTF-8 bytes followed
      by the body. */
  lemma AcceptedRequestIsSigned(p: Platform, check: Ed25519Check, headers: map<string, string>, body: seq<byte>)
    requires p.keyState.Active?
    requires VerifyRequest(p, check, headers, body)
    ensures Timestamp(headers) != ""
    ensures exists sig: seq<byte> ::
      && Hex.ToHex(sig) == Hex.LowerHex(Hex.StripSpace(Signature(headers)))
      && |sig| == SignatureLength
      && check(p.keyState.key, Utf8.Encode(Timestamp(headers)) + body, sig)
  {
    var sig := Hex.FromHex(Signature(headers)).value;
    Hex.FromHexSound(Signature(headers));
    assert Hex.ToHex(sig) == Hex.LowerHex(Hex.StripSpace(Signature(headers)));
  }

  /** Header lookup is not case-insensitive: only the all-lower-case and the
      canonical spelling are read, so an upper-case header is missing. */
  lemma UpperCaseHeaderIgnored(key: seq<byte>, check: Ed25519Check, sig: seq<byte>, timestamp: string, body: seq<byte>)
    requires |key| == PublicKeyLength
    ensures !VerifyRequest(NewPlatform(Some(Hex.ToHex(key))), check,
      map["X-SIGNATURE-ED25519" := Hex.ToHex(sig), TimestampHeader := timestamp], body)
  {
    ConfiguredKeyIsActive(key);
    var headers := map["X-SIGNATURE-ED25519" := Hex.ToHex(sig), TimestampHeader := timestamp];
    assert SignatureHeader !in headers && SignatureHeaderCanonical !in headers;
  }

  /** The signature scheme accepts `sig` under `key` for `message` only. */
  ghost predicate BindsTo(check: Ed25519Check, key: seq<byte>, sig: seq<byte>, message: seq<byte>)
  {
    forall m :: check(key, m, sig) ==> m == message
  }

  /** With a signature scheme that binds each signature to one message, a
      signature for `timestamp ++ body` is rejected with any other body. */
  lemma ChangedBodyRejected(p: Platform, check: Ed25519Check, headers: map<string, string>, body: seq<byte>, otherBody: seq<byte>)
    requires p.keyState.Active?
    requires Hex.FromHex(Signature(headers)).Some? ==>
      BindsTo(check, p.keyState.key, Hex.FromHex(Signature(headers)).value, Utf8.Encode(Timestamp(headers)) + body)
    requires otherBody != body
    ensures !VerifyRequest(p, check, headers, otherBody)
  {
  }

  /** The signature scheme accepts only `sig` under `key` for `message`. */
  ghost predicate OnlySignature(check: Ed25519Check, key: seq<byte>, message: seq<byte>, sig: seq<byte>)
  {
    forall s :: check(key, message, s) ==> s == sig
  }

  /** With a signature scheme that admits one signature per message, any
      other signature over the same timestamp and body is rejected. */
  lemma ChangedSignatureRejected(p: Platform, check: Ed25519Check, headers: map<string, string>, body: seq<byte>, sig: seq<byte>)
    requires p.keyState.Active?
    requires OnlySignature(check, p.keyState.key, Utf8.Encode(Timestamp(headers)) + body, sig)
    requires Hex.FromHex(Signature(headers)) != Some(sig)
    ensures !VerifyRequest(p, check, headers, body)
  {
  }

  /** Likewise, the signature is rejected under any other timestamp: the UTF-8
      encoding is injective, so no other timestamp gives the same signed bytes. */
  lemma ChangedTimestampRejected(p: Platform, check: Ed25519Check, headers: map<string, string>, body: seq<byte>, timestamp: string)
    requires p.keyState.Active?
    requires Hex.FromHex(Signature(headers)).Some? ==>
      BindsTo(check, p.keyState.key, Hex.FromHex(Signature(headers)).value, Utf8.Encode(timestamp) + body)
    requires Timestamp(headers) != timestamp
    ensures !VerifyRequest(p, check, headers, body)
  {
    var a := Utf8.Encode(Timestamp(headers));
    var b := Utf8.Encode(timestamp);
    assert (a + body)[..|a|] == a;
    assert (b + body)[..|b|] == b;
    Utf8.DecodeEncode(Timestamp(headers));
    Utf8.DecodeEncode(timestamp);
  }
}
