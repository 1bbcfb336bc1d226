/** The MeshCore packet decoder and the packet hash.

    The wire format is specified by an encoder for frames; the decoder is proved to accept exactly
    its image and to lose nothing.
  */
module Meshcore {
  import opened Wrappers
  import opened Text

  datatype DecodeError =
    | Empty | BadHex | TooShort | BadVersion | MissingCodes | MissingPathLength | BadHopSize | PathOutOfBounds

  datatype Result<T> = Ok(value: T) | Err(error: DecodeError)

  datatype Packet = Packet(
    header: byte,
    payloadVersion: nat,
    payloadType: nat,
    routeType: nat,
    transportCodes: Option<(nat, nat)>,
    pathLen: nat,
    bytesPerHop: nat,
    pathByteLength: nat,
    path: seq<string>,
    pathHex: string,
    payloadHex: string,
    payloadBytes: seq<byte>)

  // ----- the decoder

  function DecodePathLenByte(value: byte): (r: Result<(nat, nat)>)
    ensures r.Ok? ==> r.value.0 < 64 && 1 <= r.value.1 <= 3
  {
    var bytesPerHop := value / 64 + 1;
    if bytesPerHop > 3 then Err(BadHopSize) else Ok((value % 64, bytesPerHop))
  }

  /** pathLen * bytesPerHop, hop size by hop size to keep the arithmetic linear. */
  function PathBytes(n: nat, k: nat): nat {
    if k <= 1 then n else if k == 2 then n + n else n + n + n
  }

  lemma PathBytesIsProduct(n: nat, k: nat)
    requires 1 <= k <= 3
    ensures PathBytes(n, k) == n * k
  {
  }

  predicate HasTransportCodes(routeType: int) {
    routeType == 0 || routeType == 3
  }

  function Word(low: byte, high: byte): (w: nat)
    ensures w < 65536 && w % 256 == low && w / 256 == high
  {
    low as int + 256 * high
  }

  /** Cuts `bytes` into groups of `k` bytes; a last, shorter group is dropped. */
  function Groups(bytes: seq<byte>, k: nat): (groups: seq<seq<byte>>)
    requires k > 0
    ensures forall g :: g in groups ==> |g| == k
  {
    if |bytes| < k then [] else [bytes[..k]] + Groups(bytes[k..], k)
  }

  function HexEach(groups: seq<seq<byte>>): seq<string> {
    if groups == [] then [] else [EncodeHex(groups[0])] + HexEach(groups[1..])
  }

  function StripPrefix(s: string): string {
    if "0x" <= s then s[2..] else s
  }

  function Normalize(payloadHex: string): string {
    StripPrefix(TrimSpace(payloadHex))
  }

  function DecodeBytes(raw: seq<byte>): Result<Packet> {
    if |raw| < 2 then Err(TooShort)
    else
      var header := raw[0];
      if header / 64 != 0 then Err(BadVersion)
      else
        var routeType := header % 4;
        if HasTransportCodes(routeType) then
          if |raw| < 5 then Err(MissingCodes)
          else DecodePath(header, Some((Word(raw[1], raw[2]), Word(raw[3], raw[4]))), raw[5..])
        else
          DecodePath(header, None, raw[1..])
  }

  /** From the path-length byte on. */
  function DecodePath(header: byte, codes: Option<(nat, nat)>, rest: seq<byte>): Result<Packet> {
    if rest == [] then Err(MissingPathLength)
    else match DecodePathLenByte(rest[0])
      case Err(e) => Err(e)
      case Ok((pathLen, bytesPerHop)) =>
        var n := PathBytes(pathLen, bytesPerHop);
        if |rest| < 1 + n then Err(PathOutOfBounds)
        else
          var pathBytes, payload := rest[1..1 + n], rest[1 + n..];
          Ok(Packet(header, header / 64, header / 4 % 16, header % 4, codes, pathLen, bytesPerHop, n,
                    HexEach(Groups(pathBytes, bytesPerHop)), EncodeHex(pathBytes), EncodeHex(payload), payload))
  }

  function Decode(payloadHex: string): Result<Packet> {
    var normalized := Normalize(payloadHex);
    if normalized == "" then Err(Empty)
    else match DecodeHex(normalized)
      case None => Err(BadHex)
      case Some(raw) => DecodeBytes(raw)
  }

  /** The decoder as it runs: an offset moves over the bytes and the path is grouped in a loop. */
  method DecodePacket(payloadHex: string) returns (result: Result<Packet>)
    ensures result == Decode(payloadHex)
  {
    hide Groups, HexEach, EncodeHex, DecodeHex, Normalize;
    var normalized := Normalize(payloadHex);
    if normalized == "" {
      return Err(Empty);
    }
    var decoded := DecodeHex(normalized);
    if decoded.None? {
      return Err(BadHex);
    }
    var raw := decoded.value;
    if |raw| < 2 {
      return Err(TooShort);
    }
    var offset := 0;
    var header := raw[offset];
    offset := offset + 1;
    var payloadVersion := header / 64;
    if payloadVersion != 0 {
      return Err(BadVersion);
    }
    var payloadType := header / 4 % 16;
    var routeType := header % 4;
    var transportCodes: Option<(nat, nat)> := None;
    if HasTransportCodes(routeType) {
      if |raw| < offset + 4 {
        return Err(MissingCodes);
      }
      transportCodes := Some((Word(raw[offset], raw[offset + 1]), Word(raw[offset + 2], raw[offset + 3])));
      offset := offset + 4;
    }
    if |raw| <= offset {
      return Err(MissingPathLength);
    }
    ghost var rest := raw[offset..];
    var lengths := DecodePathLenByte(raw[offset]);
    if lengths.Err? {
      return Err(lengths.error);
    }
    var (pathLen, bytesPerHop) := lengths.value;
    offset := offset + 1;
    var pathByteLength := pathLen * bytesPerHop;
    PathBytesIsProduct(pathLen, bytesPerHop);
    if |raw| < offset + pathByteLength {
      return Err(PathOutOfBounds);
    }
    var pathBytes := raw[offset..offset + pathByteLength];
    assert pathBytes == rest[1..1 + pathByteLength];
    offset := offset + pathByteLength;
    var payloadBytes := raw[offset..];
    assert payloadBytes == rest[1 + pathByteLength..];
    var groupedPath := GroupPath(pathBytes, pathLen, bytesPerHop);
    result := Ok(Packet(header, payloadVersion, payloadType, routeType, transportCodes, pathLen, bytesPerHop,
                        pathByteLength, groupedPath, EncodeHex(pathBytes), EncodeHex(payloadBytes), payloadBytes));
  }

  method GroupPath(pathBytes: seq<byte>, pathLen: nat, bytesPerHop: nat) returns (grouped: seq<string>)
    requires bytesPerHop > 0 && |pathBytes| == pathLen * bytesPerHop
    ensures grouped == HexEach(Groups(pathBytes, bytesPerHop))
  {
    grouped := [];
    var i := 0;
    while i < pathLen
      invariant 0 <= i <= pathLen
      invariant 0 <= i * bytesPerHop <= |pathBytes|
      invariant grouped + HexEach(Groups(pathBytes[i * bytesPerHop..], bytesPerHop)) ==
                HexEach(Groups(pathBytes, bytesPerHop))
    {
      var start := i * bytesPerHop;
      NextGroup(i, pathLen, bytesPerHop);
      var end := start + bytesPerHop;
      ghost var left := pathBytes[start..];
      assert left[bytesPerHop..] == pathBytes[end..] && left[..bytesPerHop] == pathBytes[start..end];
      assert HexEach(Groups(left, bytesPerHop)) ==
             [EncodeHex(pathBytes[start..end])] + HexEach(Groups(pathBytes[end..], bytesPerHop));
      grouped := grouped + [EncodeHex(pathBytes[start..end])];
      i := i + 1;
    }
  }

  lemma NextGroup(i: nat, n: nat, k: nat)
    requires i < n
    ensures (i + 1) * k == i * k + k <= n * k
  {
  }

  // ----- the wire format

  datatype Frame = Frame(
    payloadType: nat, routeType: nat, codes: Option<(nat, nat)>, hopSize: nat, hops: seq<seq<byte>>, payload: seq<byte>)

  ghost predicate WellFormedFrame(f: Frame) {
    && f.payloadType < 16
    && f.routeType < 4
    && (f.codes.Some? <==> f.routeType == 0 || f.routeType == 3)
    && (f.codes.Some? ==> f.codes.value.0 < 65536 && f.codes.value.1 < 65536)
    && 1 <= f.hopSize <= 3
    && |f.hops| < 64
    && (forall h :: h in f.hops ==> |h| == f.hopSize)
  }

  function Flatten(groups: seq<seq<byte>>): seq<byte> {
    if groups == [] then [] else groups[0] + Flatten(groups[1..])
  }

  function EncodeCodes(codes: Option<(nat, nat)>): seq<byte>
    requires codes.Some? ==> codes.value.0 < 65536 && codes.value.1 < 65536
  {
    match codes
    case None => []
    case Some((a, b)) => [a % 256, a / 256, b % 256, b / 256]
  }

  /** Version 0 in the two high bits, then type and route. */
  function HeaderByte(payloadType: nat, routeType: nat): (h: byte)
    requires payloadType < 16 && routeType < 4
    ensures h / 64 == 0 && h / 4 % 16 == payloadType && h % 4 == routeType
  {
    4 * payloadType + routeType
  }

  /** The path length byte packs hop size and hop count. */
  function LengthByte(n: nat, k: nat): (b: byte)
    requires n < 64 && 1 <= k <= 3
    ensures DecodePathLenByte(b) == Ok((n, k))
  {
    64 * (k - 1) + n
  }

  ghost function EncodeBody(f: Frame): seq<byte>
    requires WellFormedFrame(f)
  {
    [LengthByte(|f.hops|, f.hopSize)] + (Flatten(f.hops) + f.payload)
  }

  ghost function EncodeFrame(f: Frame): seq<byte>
    requires WellFormedFrame(f)
  {
    [HeaderByte(f.payloadType, f.routeType)] + (EncodeCodes(f.codes) + EncodeBody(f))
  }

  ghost function PacketOf(f: Frame): Packet
    requires WellFormedFrame(f)
  {
    Packet(HeaderByte(f.payloadType, f.routeType), 0, f.payloadType, f.routeType, f.codes, |f.hops|, f.hopSize,
           PathBytes(|f.hops|, f.hopSize), HexEach(f.hops), EncodeHex(Flatten(f.hops)), EncodeHex(f.payload), f.payload)
  }

  lemma {:induction false} FlattenLength(groups: seq<seq<byte>>, k: nat)
    requires 1 <= k <= 3 && forall g :: g in groups ==> |g| == k
    ensures |Flatten(groups)| == PathBytes(|groups|, k)
  {
    if groups != [] {
      FlattenLength(groups[1..], k);
    }
  }

  lemma {:induction false} GroupsOfFlatten(groups: seq<seq<byte>>, k: nat)
    requires k > 0 && forall g :: g in groups ==> |g| == k
    ensures Groups(Flatten(groups), k) == groups
  {
    if groups != [] {
      GroupsOfFlatten(groups[1..], k);
      var all := Flatten(groups);
      assert all[..k] == groups[0] && all[k..] == Flatten(groups[1..]);
    }
  }

  lemma FlattenOneMore(first: seq<byte>, rest: seq<seq<byte>>)
    ensures Flatten([first] + rest) == first + Flatten(rest)
  {
  }

  lemma GroupsOneMore(bytes: seq<byte>, k: nat)
    requires 0 < k <= |bytes|
    ensures Groups(bytes, k) == [bytes[..k]] + Groups(bytes[k..], k)
  {
  }

  lemma {:induction false} FlattenOfGroups(bytes: seq<byte>, n: nat, k: nat)
    requires 1 <= k <= 3 && |bytes| == PathBytes(n, k)
    ensures Flatten(Groups(bytes, k)) == bytes
    ensures |Groups(bytes, k)| == n
  {
    if n > 0 {
      hide Flatten, Groups;
      FlattenOfGroups(bytes[k..], n - 1, k);
      GroupsOneMore(bytes, k);
      FlattenOneMore(bytes[..k], Groups(bytes[k..], k));
      assert bytes == bytes[..k] + bytes[k..];
    }
  }

  lemma Pieces(head: byte, middle: seq<byte>, last: seq<byte>)
    ensures var all := [head] + (middle + last);
            all[0] == head && all[1..] == middle + last && all[1..1 + |middle|] == middle && all[1 + |middle|..] == last
  {
  }

  lemma Reassemble(all: seq<byte>, n: nat)
    requires 1 + n <= |all|
    ensures all == [all[0]] + (all[1..1 + n] + all[1 + n..])
  {
  }

  lemma DecodePathParts(header: byte, codes: Option<(nat, nat)>, b: byte, n: nat, k: nat, path: seq<byte>, payload: seq<byte>)
    requires DecodePathLenByte(b) == Ok((n, k))
    requires |path| == PathBytes(n, k)
    ensures DecodePath(header, codes, [b] + (path + payload)) ==
            Ok(Packet(header, header / 64, header / 4 % 16, header % 4, codes, n, k, |path|,
                      HexEach(Groups(path, k)), EncodeHex(path), EncodeHex(payload), payload))
  {
    Pieces(b, path, payload);
  }

  lemma DecodeBytesParts(header: byte, codes: Option<(nat, nat)>, rest: seq<byte>)
    requires header / 64 == 0 && rest != []
    requires codes.Some? <==> HasTransportCodes(header % 4)
    requires codes.Some? ==> codes.value.0 < 65536 && codes.value.1 < 65536
    ensures DecodeBytes([header] + (EncodeCodes(codes) + rest)) == DecodePath(header, codes, rest)
  {
    var raw := [header] + (EncodeCodes(codes) + rest);
    Pieces(header, EncodeCodes(codes), rest);
    if codes.Some? {
      var c := EncodeCodes(codes);
      assert raw[1] == c[0] && raw[2] == c[1] && raw[3] == c[2] && raw[4] == c[3];
      assert codes == Some((Word(raw[1], raw[2]), Word(raw[3], raw[4])));
    } else {
      assert EncodeCodes(codes) + rest == rest;
    }
  }

  lemma DecodePathOfFrame(f: Frame)
    requires WellFormedFrame(f)
    ensures DecodePath(HeaderByte(f.payloadType, f.routeType), f.codes, EncodeBody(f)) == Ok(PacketOf(f))
  {
    FlattenLength(f.hops, f.hopSize);
    GroupsOfFlatten(f.hops, f.hopSize);
    DecodePathParts(HeaderByte(f.payloadType, f.routeType), f.codes, LengthByte(|f.hops|, f.hopSize),
                    |f.hops|, f.hopSize, Flatten(f.hops), f.payload);
  }

  /** Decoding an encoded frame gives that frame. */
  lemma DecodeEncodes(f: Frame)
    requires WellFormedFrame(f)
    ensures DecodeBytes(EncodeFrame(f)) == Ok(PacketOf(f))
  {
    DecodeBytesParts(HeaderByte(f.payloadType, f.routeType), f.codes, EncodeBody(f));
    DecodePathOfFrame(f);
  }

  ghost function FrameOf(p: Packet): Frame {
    Frame(p.payloadType, p.routeType, p.transportCodes, p.bytesPerHop,
          if p.bytesPerHop > 0 && DecodeHex(p.pathHex).Some? then Groups(DecodeHex(p.pathHex).value, p.bytesPerHop) else [],
          p.payloadBytes)
  }

  lemma DecodePathIsFrame(header: byte, codes: Option<(nat, nat)>, rest: seq<byte>, p: Packet)
    requires header / 64 == 0
    requires codes.Some? <==> HasTransportCodes(header % 4)
    requires codes.Some? ==> codes.value.0 < 65536 && codes.value.1 < 65536
    requires DecodePath(header, codes, rest) == Ok(p)
    ensures WellFormedFrame(FrameOf(p)) && PacketOf(FrameOf(p)) == p
    ensures rest == EncodeBody(FrameOf(p))
    ensures p.header == header && p.transportCodes == codes
  {
    var n := p.pathByteLength;
    var pathBytes := rest[1..1 + n];
    HexRoundTrip(pathBytes);
    FlattenOfGroups(pathBytes, p.pathLen, p.bytesPerHop);
    Reassemble(rest, n);
    assert FrameOf(p).hops == Groups(pathBytes, p.bytesPerHop);
    assert rest[0] == LengthByte(p.pathLen, p.bytesPerHop);
    assert header == HeaderByte(header / 4 % 16, header % 4);
  }

  /** Whatever the decoder accepts is the encoding of a well-formed frame: re-encoding the decoded
      packet gives the input bytes back. */
  lemma EncodeDecodes(raw: seq<byte>, p: Packet)
    requires DecodeBytes(raw) == Ok(p)
    ensures WellFormedFrame(FrameOf(p)) && PacketOf(FrameOf(p)) == p
    ensures EncodeFrame(FrameOf(p)) == raw
  {
    var header := raw[0];
    var codes := if HasTransportCodes(header % 4) then Some((Word(raw[1], raw[2]), Word(raw[3], raw[4]))) else None;
    var rest := if HasTransportCodes(header % 4) then raw[5..] else raw[1..];
    DecodePathIsFrame(header, codes, rest, p);
    SplitOff(raw, codes, rest);
  }

  lemma SplitOff(raw: seq<byte>, codes: Option<(nat, nat)>, rest: seq<byte>)
    requires codes.Some? ==> |raw| >= 5 && codes == Some((Word(raw[1], raw[2]), Word(raw[3], raw[4]))) && rest == raw[5..]
    requires codes.None? ==> |raw| >= 1 && rest == raw[1..]
    ensures raw == [raw[0]] + (EncodeCodes(codes) + rest)
  {
  }

  /** The decoder accepts exactly the encodings of well-formed frames. */
  lemma AcceptsExactlyFrames(raw: seq<byte>)
    ensures DecodeBytes(raw).Ok? <==> exists f :: WellFormedFrame(f) && EncodeFrame(f) == raw
  {
    if DecodeBytes(raw).Ok? {
      EncodeDecodes(raw, DecodeBytes(raw).value);
    }
    forall f | WellFormedFrame(f) && EncodeFrame(f) == raw ensures DecodeBytes(raw).Ok? {
      DecodeEncodes(f);
    }
  }

  /** The wire layout, byte by byte: version, type and route share the first byte; routes 0 and 3 have
      two transport codes, low byte first; then one byte for the size and the number of hops, the
      hops, and the payload. */
  lemma WireLayout(raw: seq<byte>, p: Packet)
    requires DecodeBytes(raw) == Ok(p)
    ensures raw[0] / 64 == 0 && p.payloadVersion == 0
    ensures raw[0] == 4 * p.payloadType + p.routeType && p.payloadType < 16 && p.routeType < 4
    ensures p.transportCodes.Some? <==> raw[0] % 4 == 0 || raw[0] % 4 == 3
    ensures var at := if raw[0] % 4 == 0 || raw[0] % 4 == 3 then 5 else 1;
            && at < |raw|
            && (at == 5 ==> p.transportCodes == Some((raw[1] as int + 256 * raw[2] as int, raw[3] as int + 256 * raw[4] as int)))
            && raw[at] == 64 * (p.bytesPerHop - 1) + p.pathLen && p.pathLen < 64 && 1 <= p.bytesPerHop <= 3
            && p.pathByteLength == p.pathLen * p.bytesPerHop && at + 1 + p.pathByteLength <= |raw|
            && p.pathHex == EncodeHex(raw[at + 1..at + 1 + p.pathByteLength])
            && p.payloadBytes == raw[at + 1 + p.pathByteLength..] && p.payloadHex == EncodeHex(p.payloadBytes)
  {
    hide Groups, EncodeHex, HexEach, DecodePath;
    var codes := raw[0] % 4 == 0 || raw[0] % 4 == 3;
    var rest := if codes then raw[5..] else raw[1..];
    var read := if codes then Some((Word(raw[1], raw[2]), Word(raw[3], raw[4]))) else None;
    assert DecodePath(raw[0], read, rest) == Ok(p);
    DecodePathLayout(raw[0], read, rest, p);
    CutFrom(raw, if codes then 5 else 1, p.pathByteLength);
  }

  lemma CutFrom(raw: seq<byte>, at: nat, n: nat)
    requires at + 1 + n <= |raw|
    ensures raw[at..][0] == raw[at]
    ensures raw[at..][1..1 + n] == raw[at + 1..at + 1 + n] && raw[at..][1 + n..] == raw[at + 1 + n..]
  {
  }

  lemma DecodePathLayout(header: byte, codes: Option<(nat, nat)>, rest: seq<byte>, p: Packet)
    requires DecodePath(header, codes, rest) == Ok(p)
    ensures p.payloadVersion == header / 64 && p.payloadType == header / 4 % 16 && p.routeType == header % 4
    ensures p.transportCodes == codes && rest != []
    ensures rest[0] == 64 * (p.bytesPerHop - 1) + p.pathLen && p.pathLen < 64 && 1 <= p.bytesPerHop <= 3
    ensures p.pathByteLength == p.pathLen * p.bytesPerHop && 1 + p.pathByteLength <= |rest|
    ensures p.pathHex == EncodeHex(rest[1..1 + p.pathByteLength])
    ensures p.payloadBytes == rest[1 + p.pathByteLength..] && p.payloadHex == EncodeHex(p.payloadBytes)
  {
    hide Groups, EncodeHex, HexEach;
    PathBytesIsProduct(p.pathLen, p.bytesPerHop);
  }

  /** A flood packet of type 5 with no hops and one byte of payload. */
  lemma KnownFlood()
    ensures DecodeBytes([0x15, 0x00, 0xff]).Ok?
    ensures var p := DecodeBytes([0x15, 0x00, 0xff]).value;
            p.payloadType == 5 && p.routeType == 1 && p.transportCodes == None && p.payloadBytes == [0xff]
  {
    hide Groups, HexEach, EncodeHex;
    var raw: seq<byte> := [0x15, 0x00, 0xff];
    assert raw[1..] == [0x00, 0xff];
    assert raw[1..][1..] == [0xff];
    assert DecodePathLenByte(0) == Ok((0, 1));
  }

  /** A length byte for two hops of three bytes. */
  lemma KnownLengthByte()
    ensures DecodePathLenByte(0x82) == Ok((2, 3))
  {
  }

  function Concat(parts: seq<string>): string {
    if parts == [] then [] else parts[0] + Concat(parts[1..])
  }

  lemma {:induction false} HexEachConcat(groups: seq<seq<byte>>)
    ensures Concat(HexEach(groups)) == EncodeHex(Flatten(groups))
  {
    if groups != [] {
      HexEachConcat(groups[1..]);
      EncodeHexConcat(groups[0], Flatten(groups[1..]));
    }
  }

  /** The grouped path concatenates to the path hex, hop by hop. */
  lemma PathConcatenates(raw: seq<byte>, p: Packet)
    requires DecodeBytes(raw) == Ok(p)
    ensures Concat(p.path) == p.pathHex && |p.path| == p.pathLen
  {
    EncodeDecodes(raw, p);
    HexEachConcat(FrameOf(p).hops);
    HexEachLength(FrameOf(p).hops);
  }

  lemma {:induction false} HexEachLength(groups: seq<seq<byte>>)
    ensures |HexEach(groups)| == |groups|
  {
    if groups != [] {
      HexEachLength(groups[1..]);
    }
  }

  lemma DigitsHaveNoPrefix(s: string)
    requires forall c :: c in s ==> IsHexDigit(c)
    ensures !("0x" <= s)
  {
    if |s| >= 2 {
      assert s[1] in s;
    }
  }

  /** A frame sent as hex text decodes to that frame. */
  lemma DecodeOfHex(f: Frame)
    requires WellFormedFrame(f)
    ensures Decode(EncodeHex(EncodeFrame(f))) == Ok(PacketOf(f))
  {
    var raw := EncodeFrame(f);
    var s := EncodeHex(raw);
    EncodeHexShape(raw);
    TrimSpaceTrims(s);
    DigitsHaveNoPrefix(s);
    HexRoundTrip(raw);
    DecodeEncodes(f);
  }

  // ----- the packet hash

  /** `digest` stands for the hex SHA-256 of a text. */
  function HashPacket(lower: char -> char, digest: string -> string, payloadHex: string): string {
    digest(ToLower(lower, TrimSpace(payloadHex)))
  }

  ghost predicate Injective(digest: string -> string) {
    forall a, b :: digest(a) == digest(b) ==> a == b
  }

  /** A decodable text keeps its `0x` prefix, or the lack of one, under lower-casing. */
  lemma PrefixFromLower(lower: char -> char, s: string, t: string)
    requires LowersAscii(lower)
    requires ToLower(lower, s) == ToLower(lower, t)
    requires "0x" <= s
    requires !("0x" <= t) ==> DecodeHex(t).Some?
    ensures "0x" <= t
  {
    assert |s| == |ToLower(lower, s)| == |t|;
    assert ToLower(lower, t)[0] == lower('0') && ToLower(lower, t)[1] == lower('x');
    assert lower(t[1]) == 'x' && lower(t[0]) == '0';
    if DecodeHex(t).Some? {
      DecodableIsDigits(t);
    }
  }

  /** Texts that are equal up to case, and both decode, decode to the same bytes. */
  lemma SameBytes(lower: char -> char, s: string, t: string)
    requires LowersAscii(lower)
    requires ToLower(lower, s) == ToLower(lower, t)
    requires DecodeHex(StripPrefix(s)).Some? && DecodeHex(StripPrefix(t)).Some?
    ensures DecodeHex(StripPrefix(s)) == DecodeHex(StripPrefix(t))
    ensures StripPrefix(s) == "" <==> StripPrefix(t) == ""
  {
    hide DecodeHex, IsHexDigit;
    if "0x" <= s {
      PrefixFromLower(lower, s, t);
    }
    if "0x" <= t {
      PrefixFromLower(lower, t, s);
    }
    assert |s| == |ToLower(lower, s)| == |t|;
    assert ToLower(lower, StripPrefix(s)) == ToLower(lower, StripPrefix(t)) by {
      if "0x" <= s {
        assert ToLower(lower, s[2..]) == ToLower(lower, s)[2..] == ToLower(lower, t[2..]);
      }
    }
    HexIgnoresCase(lower, StripPrefix(s), StripPrefix(t));
  }

  /** Deduplicating by hash is sound: packets with one hash that both decode decode alike. */
  lemma EqualHashEqualPacket(lower: char -> char, digest: string -> string, a: string, b: string)
    requires LowersAscii(lower) && Injective(digest)
    ensures HashPacket(lower, digest, a) == HashPacket(lower, digest, b) && Decode(a).Ok? && Decode(b).Ok? ==>
              Decode(a) == Decode(b)
  {
    hide DecodeHex, DecodeBytes, TrimSpace, ToLower, LowersAscii;
    if HashPacket(lower, digest, a) == HashPacket(lower, digest, b) && Decode(a).Ok? && Decode(b).Ok? {
      SameBytes(lower, TrimSpace(a), TrimSpace(b));
    }
  }

  /** Texts that decode to the same packet have the same digits up to case, whatever their prefixes. */
  lemma EqualPacketEqualDigits(lower: char -> char, a: string, b: string)
    requires LowersAscii(lower)
    requires Decode(a).Ok? && Decode(a) == Decode(b)
    ensures ToLower(lower, Normalize(a)) == ToLower(lower, Normalize(b))
  {
    hide DecodeHex, DecodeBytes, ToLower, LowersAscii, Normalize, EncodeFrame, FrameOf;
    var x, y := DecodeHex(Normalize(a)).value, DecodeHex(Normalize(b)).value;
    EncodeDecodes(x, Decode(a).value);
    EncodeDecodes(y, Decode(b).value);
    LowerIsEncoding(lower, Normalize(a));
    LowerIsEncoding(lower, Normalize(b));
  }

  lemma PrefixAndDigits(lower: char -> char, s: string, t: string)
    requires "0x" <= s <==> "0x" <= t
    requires ToLower(lower, StripPrefix(s)) == ToLower(lower, StripPrefix(t))
    ensures ToLower(lower, s) == ToLower(lower, t)
  {
    if "0x" <= s {
      assert s == "0x" + s[2..] && t == "0x" + t[2..];
      LowerConcat(lower, "0x", s[2..]);
      LowerConcat(lower, "0x", t[2..]);
    }
  }

  /** Exactly what the hash of a decodable text stands for: the packet, and whether it was written
      with a `0x` prefix. */
  lemma HashIsPacketAndPrefix(lower: char -> char, digest: string -> string, a: string, b: string)
    requires LowersAscii(lower) && Injective(digest)
    ensures Decode(a).Ok? && Decode(b).Ok? ==>
              (HashPacket(lower, digest, a) == HashPacket(lower, digest, b) <==>
                 Decode(a) == Decode(b) && ("0x" <= TrimSpace(a) <==> "0x" <= TrimSpace(b)))
  {
    hide DecodeHex, DecodeBytes, TrimSpace, ToLower, LowersAscii;
    var s, t := TrimSpace(a), TrimSpace(b);
    if Decode(a).Ok? && Decode(b).Ok? && HashPacket(lower, digest, a) == HashPacket(lower, digest, b) {
      EqualHashEqualPacket(lower, digest, a, b);
      if "0x" <= s {
        PrefixFromLower(lower, s, t);
      }
      if "0x" <= t {
        PrefixFromLower(lower, t, s);
      }
    }
    if Decode(a).Ok? && Decode(a) == Decode(b) && ("0x" <= s <==> "0x" <= t) {
      EqualPacketEqualDigits(lower, a, b);
      PrefixAndDigits(lower, s, t);
    }
  }

  lemma PrefixedTrims(s: string)
    requires Trimmed(s)
    ensures TrimSpace("0x" + s) == "0x" + s
  {
  }

  /** So deduplication misses a copy for every packet: with and without a `0x` prefix it decodes to
      the same packet under two hashes. */
  lemma PrefixEvadesDedupe(lower: char -> char, digest: string -> string, f: Frame)
    requires LowersAscii(lower) && Injective(digest) && WellFormedFrame(f)
    ensures var s := EncodeHex(EncodeFrame(f));
            && Decode("0x" + s) == Decode(s) == Ok(PacketOf(f))
            && HashPacket(lower, digest, "0x" + s) != HashPacket(lower, digest, s)
  {
    var raw := EncodeFrame(f);
    var s := EncodeHex(raw);
    DecodeOfHex(f);
    EncodeHexShape(raw);
    TrimSpaceTrims(s);
    PrefixedTrims(s);
    assert ("0x" + s)[2..] == s;
    DigitsHaveNoPrefix(s);
    assert |ToLower(lower, "0x" + s)| != |ToLower(lower, s)|;
  }
}
