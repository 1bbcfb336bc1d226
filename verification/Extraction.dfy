/** From hex text to check-in: the decoder and the extractor put together.

    This is where the stepwise model's assumption about hashes is discharged, and where a check-in
    sent as an encrypted group text is shown to come back unchanged.
  */
module Extraction {
  import opened Wrappers
  import opened Text
  import opened Meshcore
  import opened Checkins
  import opened Retention
  import opened Protocol

  datatype Config = Config(
    policy: Policy,
    prim: Primitives,
    channelKeys: seq<string>,
    hashtag: string,
    maxPacketHex: nat,
    maxObserver: nat)

  function CandidateOf(cfg: Config, payloadHex: string): Option<Candidate> {
    match Decode(payloadHex)
    case Err(_) => None
    case Ok(p) => ExtractFromPacket(cfg.prim, p.payloadType, p.payloadHex, cfg.channelKeys, cfg.hashtag)
  }

  function RulesOf(cfg: Config): Rules {
    Rules(cfg.policy,
          (s: string) => Decode(s).Ok?,
          (s: string) => HashPacket(cfg.prim.lower, cfg.prim.digest, s),
          (s: string) => CandidateOf(cfg, s))
  }

  /** Two packets with one hash carry the same check-in, or neither carries one. */
  lemma HashDeterminesCheckin(cfg: Config)
    requires LowersAscii(cfg.prim.lower) && Injective(cfg.prim.digest)
    ensures HashDetermines(RulesOf(cfg))
  {
    var rules := RulesOf(cfg);
    forall a, b | rules.decodes(a) && rules.decodes(b) && rules.hashOf(a) == rules.hashOf(b)
      ensures rules.candidateOf(a) == rules.candidateOf(b)
    {
      EqualHashEqualPacket(cfg.prim.lower, cfg.prim.digest, a, b);
    }
  }

  // ----- sending a check-in

  /** Five bytes of timestamp and flags, the text, and zeros up to a whole block. */
  function PadText(stamp: seq<byte>, text: seq<byte>): (plain: seq<byte>)
    requires |stamp| == 5
    ensures |plain| % 16 == 0 && |plain| > 0
  {
    var body := stamp + text;
    body + Zeros((16 - |body| % 16) % 16)
  }

  function Zeros(n: nat): (zeros: seq<byte>)
    ensures |zeros| == n
    ensures zeros == [] || zeros[0] == 0
  {
    seq(n, _ => 0)
  }

  /** A group-text payload: key hash, truncated MAC, ciphertext. */
  function EncodeGroupText(prim: Primitives, key: Key, stamp: seq<byte>, sender: string, message: string): (payload: seq<byte>)
    requires |stamp| == 5
    ensures |payload| > 3 && (|payload| - 3) % 16 == 0
  {
    var cipher := EncryptBlocks(prim, key, PadText(stamp, Utf8(sender + ": " + message)));
    [prim.keyHash(key), prim.mac(key, cipher).0, prim.mac(key, cipher).1] + cipher
  }

  /** A sender and message that the text format can carry. */
  ghost predicate Sendable(sender: string, message: string) {
    PlainSender(sender) && Trimmed(message) && message != "" && '\0' !in sender && '\0' !in message
  }

  lemma PaddingIsZeros(stamp: seq<byte>, text: seq<byte>) returns (zeros: seq<byte>)
    requires |stamp| == 5
    ensures PadText(stamp, text)[5..] == text + zeros
    ensures zeros == [] || zeros[0] == 0
  {
    zeros := Zeros((16 - |stamp + text| % 16) % 16);
    assert (stamp + text + zeros)[5..] == text + zeros;
  }

  lemma SentTextIsClean(sender: string, message: string)
    requires Sendable(sender, message)
    ensures TrimSpace(sender + ": " + message) == sender + ": " + message
    ensures '\0' !in sender + ": " + message
  {
  }

  lemma PaddedTextDecodes(stamp: seq<byte>, sender: string, message: string)
    requires |stamp| == 5 && Sendable(sender, message)
    ensures DecodeNullTerminated(PadText(stamp, Utf8(sender + ": " + message))[5..]) == sender + ": " + message
  {
    var text := sender + ": " + message;
    var zeros := PaddingIsZeros(stamp, Utf8(text));
    SentTextIsClean(sender, message);
    Utf8NoZero(text);
    UntilZeroStops(Utf8(text), zeros);
    Utf8RoundTrip(text);
  }

  /** The channel's own key recovers sender and message. */
  lemma RightKeyRecovers(prim: Primitives, keyHex: string, key: Key, stamp: seq<byte>, sender: string, message: string)
    requires Inverts(prim) && DecodeHex(TrimSpace(keyHex)) == Some(key)
    requires |stamp| == 5 && Sendable(sender, message)
    ensures TryKey(prim, keyHex, EncodeGroupText(prim, key, stamp, sender, message)) == Some((sender, message))
  {
    var plain := PadText(stamp, Utf8(sender + ": " + message));
    var payload := EncodeGroupText(prim, key, stamp, sender, message);
    assert payload[3..] == EncryptBlocks(prim, key, plain);
    DecryptEncrypts(prim, key, plain);
    PaddedTextDecodes(stamp, sender, message);
    ParseInverts(sender, message);
  }

  lemma {:induction false} FirstKeyThatYields(prim: Primitives, keys: seq<string>, i: nat, payload: seq<byte>)
    requires |payload| > 3 && (|payload| - 3) % 16 == 0
    requires i < |keys| && TryKey(prim, keys[i], payload).Some?
    requires forall j :: 0 <= j < i ==> TryKey(prim, keys[j], payload).None?
    ensures TryKeys(prim, keys, payload) == TryKey(prim, keys[i], payload)
  {
    hide TryKey;
    if i > 0 {
      var rest := keys[1..];
      assert rest[i - 1] == keys[i];
      assert forall j :: 0 <= j < i - 1 ==> rest[j] == keys[j + 1];
      FirstKeyThatYields(prim, rest, i - 1, payload);
    }
  }

  /** The hashtag, in whatever case, occurs in the message; or none is asked for. */
  ghost predicate Mentions(prim: Primitives, message: string, hashtag: string) {
    hashtag == "" ||
    exists i :: 0 <= i <= |message| && ToLower(prim.lower, hashtag) <= ToLower(prim.lower, message)[i..]
  }

  lemma MentionsIsValid(prim: Primitives, message: string, hashtag: string)
    ensures IsValidCheckInMessage(prim, message, hashtag) <==> Mentions(prim, message, hashtag)
  {
    assert |ToLower(prim.lower, message)| == |message|;
  }

  lemma PayloadSurvivesHex(payload: seq<byte>)
    ensures DecodeHex(TrimSpace(EncodeHex(payload))) == Some(payload)
  {
    EncodeHexShape(payload);
    TrimSpaceTrims(EncodeHex(payload));
    HexRoundTrip(payload);
  }

  /** A check-in encrypted to a channel, framed and sent as hex is extracted with its sender and
      message intact exactly when the message carries the hashtag, as long as no earlier key in the
      list also yields a text. */
  lemma GroupTextRoundTrip(cfg: Config, i: nat, key: Key, stamp: seq<byte>, sender: string, message: string, f: Frame)
    requires Inverts(cfg.prim)
    requires i < |cfg.channelKeys| && DecodeHex(TrimSpace(cfg.channelKeys[i])) == Some(key)
    requires |stamp| == 5 && Sendable(sender, message)
    requires WellFormedFrame(f) && f.payloadType == 5
    requires f.payload == EncodeGroupText(cfg.prim, key, stamp, sender, message)
    requires forall j :: 0 <= j < i ==> TryKey(cfg.prim, cfg.channelKeys[j], f.payload).None?
    ensures CandidateOf(cfg, EncodeHex(EncodeFrame(f))) ==
            if Mentions(cfg.prim, message, cfg.hashtag)
            then Some(Candidate(NormalizeUsername(cfg.prim, sender), sender, message))
            else None
  {
    hide *;
    DecodeOfHex(f);
    GroupTextDecrypts(cfg, i, key, stamp, sender, message, f);
    CandidateOfFrame(cfg, f);
    MentionsIsValid(cfg.prim, message, cfg.hashtag);
    SendableIsTrimmed(sender, message);
    ExtractDecrypted(cfg.prim, PacketOf(f).payloadHex, cfg.channelKeys, cfg.hashtag);
  }

  lemma SendableIsTrimmed(sender: string, message: string)
    requires Sendable(sender, message)
    ensures sender != "" && TrimSpace(sender) == sender && TrimSpace(message) == message
  {
    TrimSpaceTrims(sender);
    TrimSpaceTrims(message);
  }

  lemma CandidateOfFrame(cfg: Config, f: Frame)
    requires WellFormedFrame(f)
    requires Decode(EncodeHex(EncodeFrame(f))) == Ok(PacketOf(f))
    ensures PacketOf(f).payloadHex == EncodeHex(f.payload)
    ensures CandidateOf(cfg, EncodeHex(EncodeFrame(f))) ==
            ExtractFromPacket(cfg.prim, f.payloadType, PacketOf(f).payloadHex, cfg.channelKeys, cfg.hashtag)
  {
    hide Decode, ExtractFromPacket;
  }

  lemma GroupTextDecrypts(cfg: Config, i: nat, key: Key, stamp: seq<byte>, sender: string, message: string, f: Frame)
    requires Inverts(cfg.prim)
    requires i < |cfg.channelKeys| && DecodeHex(TrimSpace(cfg.channelKeys[i])) == Some(key)
    requires |stamp| == 5 && Sendable(sender, message) && WellFormedFrame(f)
    requires f.payload == EncodeGroupText(cfg.prim, key, stamp, sender, message)
    requires forall j :: 0 <= j < i ==> TryKey(cfg.prim, cfg.channelKeys[j], f.payload).None?
    ensures DecryptPayload(cfg.prim, PacketOf(f).payloadHex, cfg.channelKeys) == Some((sender, message))
  {
    hide *;
    PacketPayload(f);
    PayloadSurvivesHex(f.payload);
    RightKeyRecovers(cfg.prim, cfg.channelKeys[i], key, stamp, sender, message);
    FirstKeyThatYields(cfg.prim, cfg.channelKeys, i, f.payload);
    DecryptsByKeys(cfg.prim, PacketOf(f).payloadHex, f.payload, cfg.channelKeys);
  }

  lemma DecryptsByKeys(prim: Primitives, payloadHex: string, payload: seq<byte>, keys: seq<string>)
    requires DecodeHex(TrimSpace(payloadHex)) == Some(payload)
    requires |payload| > 3 && (|payload| - 3) % 16 == 0
    ensures DecryptPayload(prim, payloadHex, keys) == TryKeys(prim, keys, payload)
  {
    hide DecodeHex, TrimSpace, TryKeys;
  }

  lemma PacketPayload(f: Frame)
    requires WellFormedFrame(f)
    ensures PacketOf(f).payloadHex == EncodeHex(f.payload)
  {
    hide EncodeHex, HexEach, Flatten;
  }

  lemma ExtractDecrypted(prim: Primitives, payloadHex: string, keys: seq<string>, hashtag: string)
    requires DecryptPayload(prim, payloadHex, keys).Some? && DecryptPayload(prim, payloadHex, keys).value.0 != ""
    ensures var (sender, message) := DecryptPayload(prim, payloadHex, keys).value;
            ExtractFromPacket(prim, 5, payloadHex, keys, hashtag) ==
            if IsValidCheckInMessage(prim, TrimSpace(message), hashtag)
            then Some(Candidate(NormalizeUsername(prim, sender), TrimSpace(sender), TrimSpace(message)))
            else None
  {
  }

  /** A group text under a configured key whose MAC has been altered is not decrypted. */
  lemma ForgedMacIsRefused(prim: Primitives, keyHex: string, key: Key, stamp: seq<byte>, sender: string, message: string,
                           forged: seq<byte>)
    requires |stamp| == 5 && DecodeHex(TrimSpace(keyHex)) == Some(key)
    requires var sent := EncodeGroupText(prim, key, stamp, sender, message);
             |forged| == |sent| && forged[0] == sent[0] && forged[3..] == sent[3..]
             && (forged[1] != sent[1] || forged[2] != sent[2])
    ensures DecryptPayload(prim, EncodeHex(forged), [keyHex]) == None
  {
    var sent := EncodeGroupText(prim, key, stamp, sender, message);
    assert sent[3..] == EncryptBlocks(prim, key, PadText(stamp, Utf8(sender + ": " + message)));
    PayloadSurvivesHex(forged);
    hide EncodeGroupText, DecryptPayload, DecodeHex;
    DecryptsIff(prim, EncodeHex(forged), [keyHex]);
  }

  // ----- packets that are not decrypted

  /** A packet of another type, or one no key decrypts, is read as plain text if it is not JSON: sender
      and message come back exactly when the message has the hashtag.  Of a long text the first 280
      characters count. */
  lemma PlainTextRoundTrip(cfg: Config, f: Frame, sender: string, message: string)
    requires WellFormedFrame(f)
    requires f.payloadType != 5 || DecryptPayload(cfg.prim, EncodeHex(f.payload), cfg.channelKeys).None?
    requires cfg.prim.json(f.payload).None?
    requires PlainSender(sender) && Trimmed(message) && message != ""
    requires var text := TrimSpace(cfg.prim.loose(f.payload));
             (if |text| > 280 then text[..280] else text) == sender + ": " + message
    ensures CandidateOf(cfg, EncodeHex(EncodeFrame(f))) ==
            if Mentions(cfg.prim, message, cfg.hashtag)
            then Some(Candidate(NormalizeUsername(cfg.prim, sender), sender, message))
            else None
  {
    hide *;
    DecodeOfHex(f);
    CandidateOfFrame(cfg, f);
    PayloadSurvivesHex(f.payload);
    ExtractUndecrypted(cfg.prim, f.payloadType, PacketOf(f).payloadHex, cfg.channelKeys, cfg.hashtag);
    PlainTextIs(cfg.prim, PacketOf(f).payloadHex, f.payload, cfg.hashtag, sender, message);
    MentionsIsValid(cfg.prim, message, cfg.hashtag);
  }

  lemma ExtractUndecrypted(prim: Primitives, payloadType: nat, payloadHex: string, keys: seq<string>, hashtag: string)
    requires payloadType != 5 || DecryptPayload(prim, payloadHex, keys).None?
    ensures ExtractFromPacket(prim, payloadType, payloadHex, keys, hashtag) == ExtractFromPayload(prim, payloadHex, hashtag)
  {
  }

  lemma PlainTextIs(prim: Primitives, payloadHex: string, raw: seq<byte>, hashtag: string, sender: string, message: string)
    requires DecodeHex(TrimSpace(payloadHex)) == Some(raw) && prim.json(raw).None?
    requires PlainSender(sender) && Trimmed(message) && message != ""
    requires var text := TrimSpace(prim.loose(raw));
             (if |text| > 280 then text[..280] else text) == sender + ": " + message
    ensures ExtractFromPayload(prim, payloadHex, hashtag) ==
            if IsValidCheckInMessage(prim, message, hashtag)
            then Some(Candidate(NormalizeUsername(prim, sender), sender, message))
            else None
  {
    assert sender != "";
    assert Trimmed(sender + ": " + message);
    hide DecodeHex, TrimSpace, IndexOf, Utf8, ParseSenderAndMessage;
    ParseInverts(sender, message);
    TrimSpaceTrims(sender + ": " + message);
  }

  /** A JSON payload with a name and a message that has the hashtag is taken as it is. */
  lemma JsonRoundTrip(cfg: Config, f: Frame, name: string, message: string)
    requires WellFormedFrame(f)
    requires f.payloadType != 5 || DecryptPayload(cfg.prim, EncodeHex(f.payload), cfg.channelKeys).None?
    requires cfg.prim.json(f.payload) == Some((name, message))
    requires name != "" && Trimmed(name) && message != "" && Trimmed(message)
    requires Mentions(cfg.prim, message, cfg.hashtag)
    ensures CandidateOf(cfg, EncodeHex(EncodeFrame(f))) ==
            Some(Candidate(NormalizeUsername(cfg.prim, name), name, message))
  {
    hide *;
    DecodeOfHex(f);
    CandidateOfFrame(cfg, f);
    PayloadSurvivesHex(f.payload);
    ExtractUndecrypted(cfg.prim, f.payloadType, PacketOf(f).payloadHex, cfg.channelKeys, cfg.hashtag);
    MentionsIsValid(cfg.prim, message, cfg.hashtag);
    JsonIs(cfg.prim, PacketOf(f).payloadHex, f.payload, cfg.hashtag, name, message);
  }

  lemma JsonIs(prim: Primitives, payloadHex: string, raw: seq<byte>, hashtag: string, name: string, message: string)
    requires DecodeHex(TrimSpace(payloadHex)) == Some(raw) && prim.json(raw) == Some((name, message))
    requires name != "" && Trimmed(name) && message != "" && Trimmed(message)
    requires IsValidCheckInMessage(prim, message, hashtag)
    ensures ExtractFromPayload(prim, payloadHex, hashtag) == Some(Candidate(NormalizeUsername(prim, name), name, message))
  {
    hide DecodeHex, TrimSpace;
    TrimSpaceTrims(name);
    TrimSpaceTrims(message);
  }
}
