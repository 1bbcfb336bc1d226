/** Check-in extraction: channel decryption, sender and message parsing, and user names. */
module Checkins {
  import opened Wrappers
  import opened Text
  import opened Protocol

  type Block = b: seq<byte> | |b| == 16 witness seq(16, _ => 0)
  type Key = k: seq<byte> | |k| == 16 witness seq(16, _ => 0)

  /** The primitives the model leaves abstract. */
  datatype Primitives = Primitives(
    lower: char -> char,                             // Unicode lower case of one code point
    digest: string -> string,                        // hex SHA-256 of a text
    keyHash: Key -> byte,                            // first byte of SHA-256 of a channel key
    mac: (Key, seq<byte>) -> (byte, byte),           // first two bytes of HMAC-SHA-256
    encrypt: (Key, Block) -> Block,                  // AES-128, one block
    decrypt: (Key, Block) -> Block,
    json: seq<byte> -> Option<(string, string)>,     // sender and message fields of a JSON object
    loose: seq<byte> -> string)                      // bytes as text, invalid UTF-8 replaced

  ghost predicate Inverts(prim: Primitives) {
    forall k, b :: prim.decrypt(k, prim.encrypt(k, b)) == b
  }

  // ----- sender and message

  predicate HasBracketOrColon(s: string) {
    exists c :: c in s && (c == '[' || c == ']' || c == ':')
  }

  /** Splits "sender: message"; the sender must end within the first 79 bytes. */
  function ParseSenderAndMessage(raw: string): (string, string) {
    var text := TrimSpace(raw);
    if text == "" then ("", "")
    else
      var i := IndexOf(text, ": ");
      if i < |text| && 0 < |Utf8(text[..i])| < 80 then
        var sender := TrimSpace(text[..i]);
        if sender != "" && !HasBracketOrColon(sender) then (sender, TrimSpace(text[i + 2..])) else ("", text)
      else
        ("", text)
  }

  /** A text with one non-space character survives trimming. */
  lemma {:induction false} TrimKeepsLast(s: string)
    requires s != [] && !IsSpace(s[|s| - 1])
    ensures TrimSpace(s) != ""
    decreases |s|
  {
    if IsSpace(s[0]) {
      TrimKeepsLast(s[1..]);
    }
  }

  /** What follows the first ": " of a trimmed text is never blank. */
  lemma MessageIsThere(text: string, i: nat)
    requires Trimmed(text) && i < |text| && ": " <= text[i..]
    ensures i + 2 <= |text| && TrimSpace(text[i + 2..]) != ""
  {
    assert text[i + 1] == text[i..][1] == ' ';
    var message := text[i + 2..];
    assert message[|message| - 1] == text[|text| - 1];
    TrimKeepsLast(message);
  }

  /** Whenever a sender is found the message is not empty, and both are trimmed. */
  lemma SenderImpliesMessage(raw: string)
    ensures var (sender, message) := ParseSenderAndMessage(raw);
            && (sender != "" ==> message != "")
            && Trimmed(sender) && Trimmed(message)
            && !HasBracketOrColon(sender)
            && (sender == "" ==> message == TrimSpace(raw))
  {
    var text := TrimSpace(raw);
    TrimSpaceTrims(raw);
    var i := IndexOf(text, ": ");
    if i < |text| {
      MessageIsThere(text, i);
      TrimSpaceTrims(text[..i]);
      TrimSpaceTrims(text[i + 2..]);
    }
  }

  /** Parsing a text that has no sender again still finds none. */
  lemma NoSenderTwice(raw: string)
    requires ParseSenderAndMessage(raw).0 == ""
    ensures ParseSenderAndMessage(ParseSenderAndMessage(raw).1).0 == ""
  {
    SenderImpliesMessage(raw);
    TrimSpaceIdempotent(raw);
  }

  /** A sender that survives the trip: trimmed, one to 79 bytes long, free of brackets and colons. */
  ghost predicate PlainSender(sender: string) {
    Trimmed(sender) && 0 < |Utf8(sender)| < 80 && !HasBracketOrColon(sender)
  }

  lemma FirstColon(sender: string, message: string)
    requires !HasBracketOrColon(sender)
    ensures IndexOf(sender + ": " + message, ": ") == |sender|
  {
    var text := sender + ": " + message;
    assert text[|sender|..] == ": " + message;
    forall j | 0 <= j < |sender| ensures !(": " <= text[j..]) {
      assert text[j..][0] == sender[j] && sender[j] in sender;
    }
  }

  /** Parsing inverts "sender: message". */
  lemma ParseInverts(sender: string, message: string)
    requires PlainSender(sender) && Trimmed(message) && message != ""
    ensures ParseSenderAndMessage(sender + ": " + message) == (sender, message)
  {
    assert sender != "";
    hide IndexOf, Utf8, TrimSpace;
    var text := sender + ": " + message;
    TrimSpaceTrims(text);
    FirstColon(sender, message);
    assert text[..|sender|] == sender && text[|sender| + 2..] == message;
    TrimSpaceTrims(sender);
    TrimSpaceTrims(message);
  }

  /** A text has its first ": " here. */
  ghost predicate FirstAt(text: string, i: nat) {
    i < |text| && ": " <= text[i..] && forall j :: 0 <= j < i ==> !(": " <= text[j..])
  }

  /** A sender is found if and only if a first ": " ends a name of 1 to 79 bytes that is not blank and
      has no brackets or colons in it; then the name and what follows are returned, both trimmed. */
  lemma SenderFoundIff(raw: string, i: nat)
    requires FirstAt(TrimSpace(raw), i)
    ensures var text := TrimSpace(raw);
            var name := TrimSpace(text[..i]);
            && i + 2 <= |text|
            && ParseSenderAndMessage(raw) ==
               if 1 <= |Utf8(text[..i])| <= 79 && name != "" && '[' !in name && ']' !in name && ':' !in name
               then (name, TrimSpace(text[i + 2..])) else ("", text)
  {
    var text := TrimSpace(raw);
    hide Utf8, TrimSpace;
    var k := IndexOf(text, ": ");
    assert k <= i <= k;
  }

  /** Without a ": " there is no sender. */
  lemma NoColonNoSender(raw: string)
    requires forall i: nat :: !FirstAt(TrimSpace(raw), i)
    ensures ParseSenderAndMessage(raw) == ("", TrimSpace(raw))
  {
    hide Utf8, TrimSpace;
    var text := TrimSpace(raw);
    assert IndexOf(text, ": ") < |text| ==> FirstAt(text, IndexOf(text, ": "));
  }

  // ----- user names

  predicate IsWordChar(c: char) {
    'A' <= c <= 'Z' || 'a' <= c <= 'z' || '0' <= c <= '9' || c == '_'
  }

  function WordEnd(s: string): (n: nat)
    ensures n <= |s|
    ensures forall i :: 0 <= i < n ==> IsWordChar(s[i])
  {
    if s != [] && IsWordChar(s[0]) then 1 + WordEnd(s[1..]) else 0
  }

  /** The maximal runs of word characters, joined by underscores. */
  function JoinWords(s: string): (r: string)
    ensures forall c :: c in r ==> IsWordChar(c) && (c in s || c == '_')
    ensures r == "" <==> forall c :: c in s ==> !IsWordChar(c)
    decreases |s|
  {
    var n := WordEnd(s);
    if s == [] then []
    else if n == 0 then JoinWords(s[1..])
    else
      var rest := JoinWords(s[n..]);
      assert s == s[..n] + s[n..];
      if rest == [] then s[..n] else s[..n] + "_" + rest
  }

  function NormalizeUsername(prim: Primitives, input: string): string {
    var joined := JoinWords(ToLower(prim.lower, TrimSpace(input)));
    if joined == "" then "anonymous" else joined
  }

  lemma {:induction false} AllWordChars(s: string)
    requires forall c :: c in s ==> IsWordChar(c)
    ensures JoinWords(s) == s
  {
    WordEndAll(s);
  }

  lemma {:induction false} WordEndAll(s: string)
    requires forall c :: c in s ==> IsWordChar(c)
    ensures WordEnd(s) == |s|
  {
    if s != [] {
      assert s[0] in s;
      WordEndAll(s[1..]);
    }
  }

  predicate IsUsername(s: string) {
    s != "" && forall c :: c in s ==> 'a' <= c <= 'z' || '0' <= c <= '9' || c == '_'
  }

  /** Every user name is a non-empty word of lower-case letters, digits and underscores, and
      normalising it again changes nothing. */
  lemma UsernamesAreStable(prim: Primitives, input: string)
    requires LowersAscii(prim.lower)
    ensures IsUsername(NormalizeUsername(prim, input))
    ensures IsUsername(input) ==> NormalizeUsername(prim, input) == input
  {
    var lowered := ToLower(prim.lower, TrimSpace(input));
    assert forall c :: c in lowered ==> !('A' <= c <= 'Z');
    if IsUsername(input) {
      assert input[0] in input && input[|input| - 1] in input;
      TrimSpaceTrims(input);
      assert forall i :: 0 <= i < |input| ==> input[i] in input;
      assert lowered == input;
      AllWordChars(input);
    }
  }

  lemma {:induction false} WordEndStops(a: string, sep: char, b: string)
    requires !IsWordChar(sep)
    ensures WordEnd(a + [sep] + b) == WordEnd(a)
  {
    var s := a + [sep] + b;
    if a != [] {
      WordEndStops(a[1..], sep, b);
      assert s[1..] == a[1..] + [sep] + b;
    }
  }

  function Joined(x: string, y: string): string {
    if x == "" then y else if y == "" then x else x + "_" + y
  }

  lemma JoinStep(s: string)
    ensures s == [] ==> JoinWords(s) == ""
    ensures s != [] && WordEnd(s) == 0 ==> JoinWords(s) == JoinWords(s[1..])
    ensures WordEnd(s) > 0 ==> JoinWords(s) == Joined(s[..WordEnd(s)], JoinWords(s[WordEnd(s)..]))
  {
  }

  lemma JoinedTwice(x: string, y: string, z: string)
    requires x != ""
    ensures Joined(Joined(x, y), z) == Joined(x, Joined(y, z))
  {
    assert x + "_" + y + "_" + z == x + "_" + (y + "_" + z);
  }

  lemma NoWordYet(sep: char, b: string)
    requires !IsWordChar(sep)
    ensures WordEnd([sep] + b) == 0
  {
  }

  /** Words on both sides of a separator are joined by one underscore. */
  lemma {:induction false} WordsAreJoined(a: string, sep: char, b: string)
    requires !IsWordChar(sep)
    ensures JoinWords(a + [sep] + b) == Joined(JoinWords(a), JoinWords(b))
    decreases |a|
  {
    hide JoinWords, WordEnd, IsWordChar;
    var s := a + [sep] + b;
    var n := WordEnd(a);
    WordEndStops(a, sep, b);
    JoinStep(s);
    JoinStep(a);
    if a == [] {
      NoWordYet(sep, b);
      assert s == [sep] + b && s[1..] == b;
    } else if n == 0 {
      assert s[1..] == a[1..] + [sep] + b;
      WordsAreJoined(a[1..], sep, b);
    } else {
      assert s[n..] == a[n..] + [sep] + b && s[..n] == a[..n];
      WordsAreJoined(a[n..], sep, b);
      JoinedTwice(a[..n], JoinWords(a[n..]), JoinWords(b));
    }
  }

  /** Two words become one user name with an underscore. */
  lemma NameOfTwoWords(prim: Primitives, first: string, second: string)
    requires LowersAscii(prim.lower) && IsUsername(first) && IsUsername(second)
    ensures NormalizeUsername(prim, first + " " + second) == first + "_" + second
  {
    UsernameIsPlain(prim, first);
    UsernameIsPlain(prim, second);
    AllWordChars(first);
    AllWordChars(second);
    TwoWordsLowered(prim, first, second);
    hide JoinWords, WordEnd, ToLower, TrimSpace, IsUsername;
    WordsAreJoined(first, ' ', second);
  }

  lemma TwoWordsLowered(prim: Primitives, first: string, second: string)
    requires LowersAscii(prim.lower) && first != "" && second != ""
    requires ToLower(prim.lower, first) == first && ToLower(prim.lower, second) == second
    requires !IsSpace(first[0]) && !IsSpace(second[|second| - 1])
    ensures ToLower(prim.lower, TrimSpace(first + " " + second)) == first + [' '] + second
  {
    hide TrimSpace;
    var text := first + " " + second;
    TrimSpaceTrims(text);
    LowerConcat(prim.lower, first + " ", second);
    LowerConcat(prim.lower, first, " ");
    assert ToLower(prim.lower, " ") == " ";
  }

  /** A name without any letter, digit or underscore is anonymous. */
  lemma NamelessIsAnonymous(prim: Primitives, input: string)
    requires forall c :: c in ToLower(prim.lower, TrimSpace(input)) ==>
               !('a' <= c <= 'z' || 'A' <= c <= 'Z' || '0' <= c <= '9' || c == '_')
    ensures NormalizeUsername(prim, input) == "anonymous"
  {
  }

  lemma UsernameIsPlain(prim: Primitives, name: string)
    requires LowersAscii(prim.lower) && IsUsername(name)
    ensures ToLower(prim.lower, name) == name
    ensures forall c :: c in name ==> IsWordChar(c)
    ensures !IsSpace(name[0]) && !IsSpace(name[|name| - 1])
  {
    assert name[0] in name && name[|name| - 1] in name;
    assert forall i :: 0 <= i < |name| ==> name[i] in name;
  }

  // ----- the hashtag and plain text

  predicate IsValidCheckInMessage(prim: Primitives, message: string, hashtag: string) {
    hashtag == "" || Contains(ToLower(prim.lower, message), ToLower(prim.lower, hashtag))
  }

  function ParseCandidateFromText(prim: Primitives, text: string, hashtag: string): Option<Candidate> {
    var (display, message) := ParseSenderAndMessage(text);
    if display != "" && IsValidCheckInMessage(prim, message, hashtag) then
      Some(Candidate(NormalizeUsername(prim, display), display, message))
    else
      None
  }

  function SanitizeText(value: string): string {
    var trimmed := TrimSpace(value);
    if |trimmed| > 280 then TrimSpace(trimmed[..280]) else trimmed
  }

  /** The fallback for payloads that do not decrypt: JSON first, then plain text. */
  function ExtractFromPayload(prim: Primitives, payloadHex: string, hashtag: string): Option<Candidate> {
    match DecodeHex(TrimSpace(payloadHex))
    case None => None
    case Some(raw) =>
      var fields := prim.json(raw);
      if fields.Some? && TrimSpace(fields.value.0) != "" && TrimSpace(fields.value.1) != ""
         && IsValidCheckInMessage(prim, TrimSpace(fields.value.1), hashtag)
      then
        Some(Candidate(NormalizeUsername(prim, TrimSpace(fields.value.0)), TrimSpace(fields.value.0), TrimSpace(fields.value.1)))
      else
        var text := SanitizeText(prim.loose(raw));
        if text == "" then None else ParseCandidateFromText(prim, text, hashtag)
  }

  // ----- decryption

  function DecryptBlocks(prim: Primitives, key: Key, cipher: seq<byte>): (plain: seq<byte>)
    requires |cipher| % 16 == 0
    ensures |plain| == |cipher|
  {
    if cipher == [] then [] else prim.decrypt(key, cipher[..16]) + DecryptBlocks(prim, key, cipher[16..])
  }

  function EncryptBlocks(prim: Primitives, key: Key, plain: seq<byte>): (cipher: seq<byte>)
    requires |plain| % 16 == 0
    ensures |cipher| == |plain|
  {
    if plain == [] then [] else prim.encrypt(key, plain[..16]) + EncryptBlocks(prim, key, plain[16..])
  }

  /** Block by block (ECB), decryption inverts encryption. */
  lemma {:induction false} DecryptEncrypts(prim: Primitives, key: Key, plain: seq<byte>)
    requires Inverts(prim) && |plain| % 16 == 0
    ensures DecryptBlocks(prim, key, EncryptBlocks(prim, key, plain)) == plain
  {
    if plain != [] {
      DecryptEncrypts(prim, key, plain[16..]);
      var cipher := EncryptBlocks(prim, key, plain);
      assert cipher[..16] == prim.encrypt(key, plain[..16]) && cipher[16..] == EncryptBlocks(prim, key, plain[16..]);
      assert plain == plain[..16] + plain[16..];
    }
  }

  lemma DecryptNext(prim: Primitives, key: Key, cipher: seq<byte>, i: nat)
    requires |cipher| % 16 == 0 && i % 16 == 0 && i < |cipher|
    ensures i + 16 <= |cipher|
    ensures DecryptBlocks(prim, key, cipher[i..]) ==
            prim.decrypt(key, cipher[i..i + 16]) + DecryptBlocks(prim, key, cipher[i + 16..])
  {
    assert cipher[i..][..16] == cipher[i..i + 16] && cipher[i..][16..] == cipher[i + 16..];
  }

  lemma NothingToDecrypt(prim: Primitives, key: Key)
    ensures DecryptBlocks(prim, key, []) == []
  {
  }

  method DecryptAES128ECB(prim: Primitives, key: Key, ciphertext: seq<byte>) returns (out: array<byte>)
    requires |ciphertext| % 16 == 0
    ensures fresh(out) && out[..] == DecryptBlocks(prim, key, ciphertext)
  {
    hide DecryptBlocks;
    out := new byte[|ciphertext|](_ => 0);
    var i := 0;
    assert ciphertext[0..] == ciphertext;
    while i < |ciphertext|
      invariant 0 <= i <= |ciphertext| && i % 16 == 0
      invariant out[..i] + DecryptBlocks(prim, key, ciphertext[i..]) == DecryptBlocks(prim, key, ciphertext)
    {
      DecryptNext(prim, key, ciphertext, i);
      var block := prim.decrypt(key, ciphertext[i..i + 16]);
      ghost var done := out[..i];
      forall k | 0 <= k < 16 {
        out[i + k] := block[k];
      }
      assert out[..i + 16] == done + block;
      i := i + 16;
    }
    NothingToDecrypt(prim, key);
    assert ciphertext[i..] == [] && out[..i] == out[..];
  }

  function UntilZero(raw: seq<byte>): seq<byte> {
    if raw == [] || raw[0] == 0 then [] else [raw[0]] + UntilZero(raw[1..])
  }

  function DecodeNullTerminated(raw: seq<byte>): string {
    match DecodeUtf8(UntilZero(raw))
    case None => ""
    case Some(s) => TrimSpace(s)
  }

  method DecodeNullTerminatedUTF8(raw: seq<byte>) returns (text: string)
    ensures text == DecodeNullTerminated(raw)
  {
    var idx := |raw|;
    var i := 0;
    while i < |raw|
      invariant 0 <= i <= |raw|
      invariant idx == |raw|
      invariant UntilZero(raw) == raw[..i] + UntilZero(raw[i..])
    {
      if raw[i] == 0 {
        idx := i;
        break;
      }
      assert UntilZero(raw[i..]) == [raw[i]] + UntilZero(raw[i + 1..]);
      i := i + 1;
    }
    assert UntilZero(raw) == raw[..idx];
    var content := DecodeUtf8(raw[..idx]);
    text := if content.None? then "" else TrimSpace(content.value);
  }

  lemma {:induction false} UntilZeroStops(content: seq<byte>, padding: seq<byte>)
    requires 0 !in content
    requires padding == [] || padding[0] == 0
    ensures UntilZero(content + padding) == content
  {
    if content != [] {
      assert content[0] in content;
      UntilZeroStops(content[1..], padding);
      assert (content + padding)[1..] == content[1..] + padding;
    } else {
      assert content + padding == padding;
    }
  }

  /** What one channel key makes of a group-text payload. */
  function TryKey(prim: Primitives, keyHex: string, payload: seq<byte>): Option<(string, string)>
    requires |payload| > 3 && (|payload| - 3) % 16 == 0
  {
    var key := DecodeHex(TrimSpace(keyHex));
    var cipher := payload[3..];
    if key.None? || |key.value| != 16 || prim.keyHash(key.value) != payload[0]
       || prim.mac(key.value, cipher) != (payload[1], payload[2])
    then
      None
    else
      var text := DecodeNullTerminated(DecryptBlocks(prim, key.value, cipher)[5..]);
      if text == "" then None
      else
        var (sender, message) := ParseSenderAndMessage(text);
        Some((sender, if message == "" then text else message))
  }

  function TryKeys(prim: Primitives, keys: seq<string>, payload: seq<byte>): Option<(string, string)>
    requires |payload| > 3 && (|payload| - 3) % 16 == 0
  {
    if keys == [] then None
    else
      var first := TryKey(prim, keys[0], payload);
      if first.Some? then first else TryKeys(prim, keys[1..], payload)
  }

  function DecryptPayload(prim: Primitives, payloadHex: string, keys: seq<string>): Option<(string, string)> {
    match DecodeHex(TrimSpace(payloadHex))
    case None => None
    case Some(payload) =>
      if |payload| <= 3 || (|payload| - 3) % 16 != 0 then None else TryKeys(prim, keys, payload)
  }

  method TryChannelKey(prim: Primitives, keyHex: string, payload: seq<byte>) returns (result: Option<(string, string)>)
    requires |payload| > 3 && (|payload| - 3) % 16 == 0
    ensures result == TryKey(prim, keyHex, payload)
  {
    var key := DecodeHex(TrimSpace(keyHex));
    if key.None? || |key.value| != 16 {
      return None;
    }
    if prim.keyHash(key.value) != payload[0] {
      return None;
    }
    if prim.mac(key.value, payload[3..]) != (payload[1], payload[2]) {
      return None;
    }
    var plaintext := DecryptAES128ECB(prim, key.value, payload[3..]);
    var body := plaintext[..][5..];
    var text := DecodeNullTerminatedUTF8(body);
    if text == "" {
      return None;
    }
    var parsed := ParseSenderAndMessage(text);
    return Some((parsed.0, if parsed.1 == "" then text else parsed.1));
  }

  /** Tries the keys in order; a key that fails any check, or yields no text, is passed over. */
  method DecryptGroupTextPayload(prim: Primitives, payloadHex: string, channelKeys: seq<string>)
    returns (result: Option<(string, string)>)
    ensures result == DecryptPayload(prim, payloadHex, channelKeys)
  {
    var decoded := DecodeHex(TrimSpace(payloadHex));
    if decoded.None? || |decoded.value| < 3 {
      return None;
    }
    var payloadBytes := decoded.value;
    if |payloadBytes[3..]| == 0 || |payloadBytes[3..]| % 16 != 0 {
      return None;
    }
    var i := 0;
    while i < |channelKeys|
      invariant 0 <= i <= |channelKeys|
      invariant TryKeys(prim, channelKeys, payloadBytes) == TryKeys(prim, channelKeys[i..], payloadBytes)
    {
      assert channelKeys[i..][1..] == channelKeys[i + 1..];
      var attempt := TryChannelKey(prim, channelKeys[i], payloadBytes);
      if attempt.Some? {
        return attempt;
      }
      i := i + 1;
    }
    return None;
  }

  // ----- which payloads are decrypted

  /** The text that a key of sixteen bytes makes of a payload. */
  function TextUnder(prim: Primitives, key: Key, payload: seq<byte>): string
    requires |payload| > 3 && (|payload| - 3) % 16 == 0
  {
    DecodeNullTerminated(DecryptBlocks(prim, key, payload[3..])[5..])
  }

  /** The key of this hex text belongs to the payload: sixteen bytes, and both its hash and the MAC it
      gives the ciphertext are those that the payload names. */
  ghost predicate Belongs(prim: Primitives, keyHex: string, payload: seq<byte>)
    requires |payload| > 3 && (|payload| - 3) % 16 == 0
  {
    exists key: Key :: DecodeHex(TrimSpace(keyHex)) == Some(key)
                       && prim.keyHash(key) == payload[0]
                       && prim.mac(key, payload[3..]) == (payload[1], payload[2])
                       && TextUnder(prim, key, payload) != ""
  }

  lemma KeyYieldsIff(prim: Primitives, keyHex: string, payload: seq<byte>)
    requires |payload| > 3 && (|payload| - 3) % 16 == 0
    ensures TryKey(prim, keyHex, payload).Some? <==> Belongs(prim, keyHex, payload)
    ensures TryKey(prim, keyHex, payload).Some? ==>
              var text := TextUnder(prim, DecodeHex(TrimSpace(keyHex)).value, payload);
              && text != "" && TryKey(prim, keyHex, payload).value.0 == ParseSenderAndMessage(text).0
              && (ParseSenderAndMessage(text).0 != "" ==>
                    TryKey(prim, keyHex, payload).value.1 == ParseSenderAndMessage(text).1)
  {
    hide DecodeHex, ParseSenderAndMessage, DecodeNullTerminated, DecryptBlocks;
    if TryKey(prim, keyHex, payload).Some? {
      var key: Key := DecodeHex(TrimSpace(keyHex)).value;
      assert DecodeHex(TrimSpace(keyHex)) == Some(key);
      DecodedIsTrimmed(DecryptBlocks(prim, key, payload[3..])[5..]);
      SenderImpliesMessage(TextUnder(prim, key, payload));
    }
  }

  lemma {:induction false} SomeKeyYields(prim: Primitives, keys: seq<string>, payload: seq<byte>)
    requires |payload| > 3 && (|payload| - 3) % 16 == 0
    ensures TryKeys(prim, keys, payload).Some? <==> exists i :: 0 <= i < |keys| && Belongs(prim, keys[i], payload)
  {
    hide Belongs, TryKey;
    if keys != [] {
      KeyYieldsIff(prim, keys[0], payload);
      SomeKeyYields(prim, keys[1..], payload);
      assert forall i :: 0 < i < |keys| ==> keys[i] == keys[1..][i - 1];
      assert forall i :: 0 <= i < |keys| - 1 ==> keys[1..][i] == keys[i + 1];
    }
  }

  /** Exactly the payloads in hex of three bytes and at least one whole block are decrypted for which
      some channel key has the right hash and the right MAC and yields text. */
  lemma DecryptsIff(prim: Primitives, payloadHex: string, keys: seq<string>)
    ensures DecryptPayload(prim, payloadHex, keys).Some? <==>
            && DecodeHex(TrimSpace(payloadHex)).Some?
            && var payload := DecodeHex(TrimSpace(payloadHex)).value;
               && |payload| > 3 && (|payload| - 3) % 16 == 0
               && exists i :: 0 <= i < |keys| && Belongs(prim, keys[i], payload)
  {
    hide DecodeHex, TryKeys, Belongs;
    var decoded := DecodeHex(TrimSpace(payloadHex));
    if decoded.Some? && |decoded.value| > 3 && (|decoded.value| - 3) % 16 == 0 {
      SomeKeyYields(prim, keys, decoded.value);
    }
  }

  // ----- extraction

  const GROUP_TEXT: nat := 5

  function ExtractFromPacket(prim: Primitives, payloadType: nat, payloadHex: string, keys: seq<string>, hashtag: string)
    : Option<Candidate>
  {
    var decrypted := if payloadType == GROUP_TEXT then DecryptPayload(prim, payloadHex, keys) else None;
    if decrypted.None? then
      ExtractFromPayload(prim, payloadHex, hashtag)
    else
      var (sender, message) := (decrypted.value.0, TrimSpace(decrypted.value.1));
      if sender != "" then
        if IsValidCheckInMessage(prim, message, hashtag) then
          Some(Candidate(NormalizeUsername(prim, sender), TrimSpace(sender), message))
        else
          None
      else if message != "" then
        ParseCandidateFromText(prim, message, hashtag)
      else
        ExtractFromPayload(prim, payloadHex, hashtag)
  }

  /** A text came out of decryption: it is there, it is trimmed, and parsing it twice is no help. */
  ghost predicate ParsedText(sender: string, message: string) {
    message != "" && Trimmed(message) && (sender == "" ==> ParseSenderAndMessage(message).0 == "")
  }

  lemma ParsedTextOf(text: string)
    requires text != "" && Trimmed(text)
    ensures var (sender, message) := ParseSenderAndMessage(text);
            ParsedText(sender, if message == "" then text else message)
  {
    hide IndexOf, Utf8;
    SenderImpliesMessage(text);
    TrimSpaceTrims(text);
    if ParseSenderAndMessage(text).0 == "" {
      NoSenderTwice(text);
    }
  }

  lemma TryKeyParsed(prim: Primitives, keyHex: string, payload: seq<byte>)
    requires |payload| > 3 && (|payload| - 3) % 16 == 0
    requires TryKey(prim, keyHex, payload).Some?
    ensures ParsedText(TryKey(prim, keyHex, payload).value.0, TryKey(prim, keyHex, payload).value.1)
  {
    hide ParsedText, ParseSenderAndMessage, DecryptBlocks, DecodeNullTerminated, DecodeHex;
    var plain := DecryptBlocks(prim, DecodeHex(TrimSpace(keyHex)).value, payload[3..])[5..];
    DecodedIsTrimmed(plain);
    ParsedTextOf(DecodeNullTerminated(plain));
  }

  lemma {:induction false} TryKeysParsed(prim: Primitives, keys: seq<string>, payload: seq<byte>)
    requires |payload| > 3 && (|payload| - 3) % 16 == 0
    requires TryKeys(prim, keys, payload).Some?
    ensures ParsedText(TryKeys(prim, keys, payload).value.0, TryKeys(prim, keys, payload).value.1)
  {
    hide TryKey, ParsedText;
    if TryKey(prim, keys[0], payload).Some? {
      TryKeyParsed(prim, keys[0], payload);
    } else {
      TryKeysParsed(prim, keys[1..], payload);
    }
  }

  lemma DecodedIsTrimmed(raw: seq<byte>)
    ensures Trimmed(DecodeNullTerminated(raw))
  {
    match DecodeUtf8(UntilZero(raw))
    case None =>
    case Some(s) => TrimSpaceTrims(s);
  }

  /** A packet that decrypts to a text without a sender is never a check-in: parsing the text a
      second time cannot succeed, and the fallback is not reached. */
  lemma NoSenderNoCheckin(prim: Primitives, payloadHex: string, keys: seq<string>, hashtag: string)
    requires DecryptPayload(prim, payloadHex, keys).Some?
    ensures ExtractFromPacket(prim, GROUP_TEXT, payloadHex, keys, hashtag).Some? <==>
            var (sender, message) := DecryptPayload(prim, payloadHex, keys).value;
            sender != "" && IsValidCheckInMessage(prim, message, hashtag)
  {
    var payload := DecodeHex(TrimSpace(payloadHex)).value;
    TryKeysParsed(prim, keys, payload);
    TrimSpaceTrims(DecryptPayload(prim, payloadHex, keys).value.1);
  }
}
