/** The ingest service: what happens to one MQTT message, and the restore run. */
module Ingest {
  import opened Wrappers
  import opened Text
  import opened Meshcore
  import opened Checkins
  import opened Calendar
  import opened Tables
  import opened Views
  import opened Protocol
  import opened Lateness
  import opened Provenance
  import opened Convergence
  import opened Extraction
  import opened Store
  import opened Journal

  const BUSY_RETRY_ATTEMPTS: nat := 15

  /** The fields the service reads from a JSON envelope. */
  datatype Envelope = Envelope(origin: string, raw: string)

  /** Upper-casing, JSON parsing of an envelope (nothing if it is not valid), and cutting a text to a
      number of bytes. */
  datatype Environment = Environment(
    upper: string -> string, envelope: string -> Option<Envelope>, cut: (string, nat) -> string)

  ghost predicate CutsToSize(env: Environment) {
    forall s, n :: |Utf8(env.cut(s, n))| <= n
  }

  // ----- from message to delivery

  function ParseTopic(env: Environment, topic: string): Option<(string, string)> {
    var parts := Split(TrimSpace(topic), '/');
    if |parts| != 4 || parts[0] != "meshcore" || parts[3] != "packets" then None
    else Some((env.upper(parts[1]), parts[2]))
  }

  function DecodeIncomingEnvelope(cfg: Config, env: Environment, payload: string, fallback: string): Option<(string, string)> {
    var trimmed := TrimSpace(payload);
    if trimmed == "" || |Utf8(trimmed)| > cfg.maxPacketHex then None
    else if trimmed[0] == '{' then
      match env.envelope(trimmed)
      case None => None
      case Some(e) =>
        var raw, name := TrimSpace(e.raw), TrimSpace(e.origin);
        if raw == "" || |Utf8(raw)| > cfg.maxPacketHex then None
        else if name == "" then Some((raw, fallback))
        else if |Utf8(name)| > cfg.maxObserver then None
        else Some((raw, name))
    else if |Utf8(fallback)| > cfg.maxObserver then
      Some((trimmed, env.cut(fallback, cfg.maxObserver)))
    else
      Some((trimmed, fallback))
  }

  function TopicOf(iata: string, device: string): seq<string> {
    ["meshcore", iata, device, "packets"]
  }

  /** Exactly the topics meshcore/<iata>/<device>/packets are accepted, and taken apart as written. */
  lemma TopicsAccepted(env: Environment, topic: string, iata: string, device: string)
    requires '/' !in iata && '/' !in device
    ensures TrimSpace(topic) == Join(TopicOf(iata, device), '/') <==>
            Split(TrimSpace(topic), '/') == TopicOf(iata, device)
    ensures TrimSpace(topic) == Join(TopicOf(iata, device), '/') ==>
            ParseTopic(env, topic) == Some((env.upper(iata), device))
  {
    var parts := TopicOf(iata, device);
    assert parts[0] == "meshcore" && parts[1] == iata && parts[2] == device && parts[3] == "packets";
    assert Lacks(parts, '/');
    hide Split, Join, TrimSpace;
    SplitInvertsJoin(parts, '/');
    JoinInvertsSplit(TrimSpace(topic), '/');
  }

  lemma AcceptedTopic(env: Environment, topic: string) returns (iata: string, device: string)
    requires ParseTopic(env, topic).Some?
    ensures '/' !in iata && '/' !in device
    ensures TrimSpace(topic) == Join(TopicOf(iata, device), '/')
    ensures ParseTopic(env, topic) == Some((env.upper(iata), device))
  {
    hide Split, Join, TrimSpace;
    var parts := Split(TrimSpace(topic), '/');
    iata, device := parts[1], parts[2];
    SplitLacks(TrimSpace(topic), '/');
    JoinInvertsSplit(TrimSpace(topic), '/');
    assert parts == TopicOf(iata, device);
  }

  /** The packet text handed on is trimmed, not empty and within its limit.  The observer key is within
      its limit except for a JSON envelope that names no origin: then the topic's device key is taken
      as it is, however long. */
  lemma EnvelopeLimits(cfg: Config, env: Environment, payload: string, fallback: string)
    requires CutsToSize(env)
    requires DecodeIncomingEnvelope(cfg, env, payload, fallback).Some?
    ensures var (packetHex, observer) := DecodeIncomingEnvelope(cfg, env, payload, fallback).value;
            && packetHex != "" && Trimmed(packetHex) && |Utf8(packetHex)| <= cfg.maxPacketHex
            && (|Utf8(observer)| <= cfg.maxObserver <==>
                  |Utf8(fallback)| <= cfg.maxObserver
                  || TrimSpace(payload)[0] != '{'
                  || TrimSpace(env.envelope(TrimSpace(payload)).value.origin) != "")
  {
    hide TrimSpace, Utf8;
    TrimSpaceTrims(payload);
    if TrimSpace(payload)[0] == '{' {
      TrimSpaceTrims(env.envelope(TrimSpace(payload)).value.raw);
    }
  }

  /** For example: with an envelope that only holds a packet, the device key is taken on, however long. */
  lemma LongDeviceKeyPasses(cfg: Config, env: Environment, fallback: string)
    ensures var payload := "{\"raw\":\"00\"}";
            && env.envelope(payload) == Some(Envelope("", "00"))
            && |Utf8(payload)| <= cfg.maxPacketHex && |Utf8("00")| <= cfg.maxPacketHex ==>
            DecodeIncomingEnvelope(cfg, env, payload, fallback) == Some(("00", fallback))
  {
    hide Utf8;
    var payload := "{\"raw\":\"00\"}";
    assert Trimmed(payload) && Trimmed("00");
    hide TrimSpace;
    TrimSpaceTrims(payload);
    TrimSpaceTrims("00");
    TrimSpaceTrims("");
  }

  /** The weekday guard, the topic, the envelope and the decoder, in that order. */
  function Prepare(cfg: Config, env: Environment, topic: string, payload: string, nanos: int): Option<Delivery> {
    var observedAt := nanos / 1_000_000_000;
    if !IsWeekday(cfg.policy.zone, cfg.policy.target, observedAt) then None
    else match ParseTopic(env, topic)
      case None => None
      case Some((iata, device)) =>
        match DecodeIncomingEnvelope(cfg, env, payload, device)
        case None => None
        case Some((packetHex, observer)) =>
          if Decode(packetHex).Err? then None
          else Some(Delivery(HashPacket(cfg.prim.lower, cfg.prim.digest, packetHex), iata, observer, packetHex, observedAt))
  }

  /** What is handed on satisfies the stepwise model's notion of an accepted delivery. */
  lemma PreparedIsAccepted(cfg: Config, env: Environment, topic: string, payload: string, nanos: int)
    ensures Prepare(cfg, env, topic, payload, nanos).Some? ==>
              Accepted(RulesOf(cfg), Prepare(cfg, env, topic, payload, nanos).value)
  {
  }

  /** An ordinary message, heard on the target weekday: a packet in plain hex is taken as it is, and the
      device of the topic is its observer, cut to the limit if it is longer. */
  lemma PlainMessageIsPrepared(cfg: Config, env: Environment, iata: string, device: string, packetHex: string, nanos: int)
    requires IsWeekday(cfg.policy.zone, cfg.policy.target, nanos / 1_000_000_000)
    requires '/' !in iata && '/' !in device
    requires Trimmed(packetHex) && packetHex != "" && packetHex[0] != '{' && Decode(packetHex).Ok?
    requires |Utf8(packetHex)| <= cfg.maxPacketHex
    ensures var observer := if |Utf8(device)| <= cfg.maxObserver then device else env.cut(device, cfg.maxObserver);
            Prepare(cfg, env, Join(["meshcore", iata, device, "packets"], '/'), packetHex, nanos) ==
            Some(Delivery(cfg.prim.digest(ToLower(cfg.prim.lower, packetHex)), env.upper(iata), observer, packetHex,
                          nanos / 1_000_000_000))
  {
    hide Decode, Utf8, IsWeekday, TrimSpace, Split, Join;
    TrimSpaceTrims(packetHex);
    TopicIsTrimmed(iata, device);
    TopicsAccepted(env, Join(TopicOf(iata, device), '/'), iata, device);
  }

  /** The same in an envelope that names its origin: then the origin is the observer. */
  lemma EnvelopeIsPrepared(cfg: Config, env: Environment, iata: string, device: string, payload: string,
                           origin: string, packetHex: string, nanos: int)
    requires IsWeekday(cfg.policy.zone, cfg.policy.target, nanos / 1_000_000_000)
    requires '/' !in iata && '/' !in device
    requires Trimmed(payload) && payload != "" && payload[0] == '{' && |Utf8(payload)| <= cfg.maxPacketHex
    requires env.envelope(payload) == Some(Envelope(origin, packetHex))
    requires Trimmed(packetHex) && packetHex != "" && |Utf8(packetHex)| <= cfg.maxPacketHex && Decode(packetHex).Ok?
    requires Trimmed(origin) && origin != "" && |Utf8(origin)| <= cfg.maxObserver
    ensures Prepare(cfg, env, Join(["meshcore", iata, device, "packets"], '/'), payload, nanos) ==
            Some(Delivery(cfg.prim.digest(ToLower(cfg.prim.lower, packetHex)), env.upper(iata), origin, packetHex,
                          nanos / 1_000_000_000))
  {
    hide Decode, Utf8, IsWeekday, TrimSpace, Split, Join;
    TrimSpaceTrims(payload);
    TrimSpaceTrims(packetHex);
    TrimSpaceTrims(origin);
    TopicIsTrimmed(iata, device);
    TopicsAccepted(env, Join(TopicOf(iata, device), '/'), iata, device);
  }

  /** Nothing else is let through: not on another day, not under another topic, not a packet that does
      not decode; and what is let through is what was sent. */
  lemma RefusedMessages(cfg: Config, env: Environment, topic: string, payload: string, nanos: int)
    requires Prepare(cfg, env, topic, payload, nanos).Some?
    ensures IsWeekday(cfg.policy.zone, cfg.policy.target, nanos / 1_000_000_000)
    ensures exists iata, device :: TrimSpace(topic) == Join(["meshcore", iata, device, "packets"], '/')
    ensures var d := Prepare(cfg, env, topic, payload, nanos).value;
            && Decode(d.payloadHex).Ok? && d.hash == cfg.prim.digest(ToLower(cfg.prim.lower, d.payloadHex))
            && d.observedAt == nanos / 1_000_000_000
            && (d.payloadHex == TrimSpace(payload)
                || exists e :: env.envelope(TrimSpace(payload)) == Some(e) && d.payloadHex == TrimSpace(e.raw))
  {
    hide Decode, Utf8, IsWeekday, TrimSpace, Split, Join, ToLower;
    var iata, device := AcceptedTopic(env, topic);
    assert TopicOf(iata, device) == ["meshcore", iata, device, "packets"];
    var d := Prepare(cfg, env, topic, payload, nanos).value;
    TrimSpaceTrims(payload);
    TrimSpaceIdempotent(payload);
    match env.envelope(TrimSpace(payload))
    case None =>
    case Some(e) => TrimSpaceIdempotent(e.raw);
  }

  lemma TopicIsTrimmed(iata: string, device: string)
    ensures TrimSpace(Join(TopicOf(iata, device), '/')) == Join(TopicOf(iata, device), '/')
  {
    var parts := TopicOf(iata, device);
    assert parts[1..] == [iata, device, "packets"] && parts[2..] == [device, "packets"] && parts[3..] == ["packets"];
    assert parts[1..][1..] == parts[2..] && parts[2..][1..] == parts[3..];
    assert Join(parts[2..], '/') == device + "/" + "packets";
    assert Join(parts[1..], '/') == iata + "/" + Join(parts[2..], '/');
    var topic := Join(parts, '/');
    assert topic == "meshcore" + "/" + Join(parts[1..], '/');
    assert topic[0] == 'm' && topic[|topic| - 1] == 's';
    TrimSpaceTrims(topic);
  }

  lemma HandlingKeepsStore(cfg: Config, env: Environment, topic: string, payload: string, nanos: int, db: Db)
    ensures var d := Prepare(cfg, env, topic, payload, nanos);
            WellFormed(db) && CheckinsLinked(db) ==>
              && Kept(db, db)
              && (d.Some? ==> forall script :: Kept(db, Settle(RulesOf(cfg), db, Handler(d.value, AtRaw), script).0))
  {
    hide Prepare, RulesOf, WellFormed, CheckinsLinked;
    var d := Prepare(cfg, env, topic, payload, nanos);
    if WellFormed(db) && CheckinsLinked(db) && d.Some? {
      PreparedIsAccepted(cfg, env, topic, payload, nanos);
      forall script ensures Kept(db, Settle(RulesOf(cfg), db, Handler(d.value, AtRaw), script).0) {
        SettleKeepsStore(RulesOf(cfg), db, Handler(d.value, AtRaw), script);
      }
    }
  }

  /** For the decoder and extractor as they are: what readers see depends only on which packets were
      heard by whom in which week. */
  lemma IngestConverges(cfg: Config, states: seq<Sys>, steps: seq<Step>, states': seq<Sys>, steps': seq<Step>)
    requires LowersAscii(cfg.prim.lower) && Injective(cfg.prim.digest)
    requires CleanRun(RulesOf(cfg), states, steps) && CleanRun(RulesOf(cfg), states', steps')
    requires Quiet(states[|steps|]) && Quiet(states'[|steps'|])
    requires Covered(RulesOf(cfg), Deliveries(states[|steps|]), Deliveries(states'[|steps'|]))
    requires Covered(RulesOf(cfg), Deliveries(states'[|steps'|]), Deliveries(states[|steps|]))
    requires OneWeekPerHash(RulesOf(cfg), Deliveries(states[|steps|]))
    ensures CheckinKeys(states[|steps|].db) == CheckinKeys(states'[|steps'|].db)
    ensures forall week, username ::
              Observers(states[|steps|].db, week, username) == Observers(states'[|steps'|].db, week, username)
  {
    hide HashDetermines, Deliveries, Quiet, OneWeekPerHash, Covered;
    HashDeterminesCheckin(cfg);
    RulesFields(cfg, "");
    Converge(RulesOf(cfg), states, steps, states', steps');
  }

  /** One more attempt at the end of a script is one more statement. */
  lemma {:induction false} SettleOneMore(rules: Rules, db: Db, h: Handler, script: seq<Attempt>, a: Attempt)
    ensures var (db', h') := Settle(rules, db, h, script);
            Settle(rules, db, h, script + [a]) ==
            if InFlight(h') then (AdvanceDb(rules, db', h', a.ok, a.at), h'.(pc := AdvancePc(rules, db', h', a.ok, a.at)))
            else (db', h')
    decreases |script|
  {
    if script == [] {
      assert ([] + [a])[1..] == [];
    } else if InFlight(h) {
      assert (script + [a])[1..] == script[1..] + [a];
      SettleOneMore(rules, AdvanceDb(rules, db, h, script[0].ok, script[0].at),
                    h.(pc := AdvancePc(rules, db, h, script[0].ok, script[0].at)), script[1..], a);
    }
  }

  lemma SettleNothing(rules: Rules, db: Db, h: Handler)
    ensures Settle(rules, db, h, []) == (db, h)
  {
  }

  lemma RulesFields(cfg: Config, payloadHex: string)
    ensures RulesOf(cfg).policy == cfg.policy
    ensures RulesOf(cfg).candidateOf(payloadHex) == CandidateOf(cfg, payloadHex)
  {
  }

  /** What the restore finds in one row. */
  lemma RestoreLinkOf(cfg: Config, row: RawPacket, at: int)
    ensures RestoreLink(RulesOf(cfg), row, at) ==
            if Decode(row.payloadHex).Ok? && CandidateOf(cfg, row.payloadHex).Some?
               && IsWeekday(cfg.policy.zone, cfg.policy.target, row.observedAt)
            then Some(Link(WeekDate(cfg.policy.zone, cfg.policy.target, row.observedAt),
                           CandidateOf(cfg, row.payloadHex).value.username, row.hash, at))
            else None
  {
  }

  lemma CandidateOfDecoded(cfg: Config, payloadHex: string)
    ensures match Decode(payloadHex)
            case Ok(p) => CandidateOf(cfg, payloadHex) ==
                          ExtractFromPacket(cfg.prim, p.payloadType, p.payloadHex, cfg.channelKeys, cfg.hashtag)
            case Err(_) => CandidateOf(cfg, payloadHex).None?
  {
  }

  lemma LinkStatement(db: Db, link: Link)
    ensures OutcomeOf(db, LinkInsert(link)) == LinkOutcome(db, link)
    ensures EffectOf(db, LinkInsert(link)) == InsertLink(db, link)
  {
  }

  datatype RestoreResult = RestoreResult(
    rawScanned: nat, decoded: nat, checkinsFound: nat, qualifyingCheckins: nat,
    linksInserted: nat, decodeErrors: nat, insertLinkErrors: nat)

  /** The rows that decode, those that carry a check-in, and those that were also heard on the target
      weekday, by position. */
  function Decoded(rows: seq<RawPacket>): set<int> {
    set i | 0 <= i < |rows| && Decode(rows[i].payloadHex).Ok?
  }

  function Carrying(cfg: Config, rows: seq<RawPacket>): set<int> {
    set i | 0 <= i < |rows| && CandidateOf(cfg, rows[i].payloadHex).Some?
  }

  function Qualifying(cfg: Config, rows: seq<RawPacket>): set<int> {
    set i | 0 <= i < |rows| && CandidateOf(cfg, rows[i].payloadHex).Some?
            && IsWeekday(cfg.policy.zone, cfg.policy.target, rows[i].observedAt)
  }

  lemma CountDecoded(rows: seq<RawPacket>, i: nat)
    requires i < |rows|
    ensures |Decoded(rows[..i + 1])| == |Decoded(rows[..i])| + if Decode(rows[i].payloadHex).Ok? then 1 else 0
  {
    hide Decode;
    assert Decoded(rows[..i + 1]) == Decoded(rows[..i]) + if Decode(rows[i].payloadHex).Ok? then {i} else {};
  }

  lemma CountCarrying(cfg: Config, rows: seq<RawPacket>, i: nat)
    requires i < |rows|
    ensures |Carrying(cfg, rows[..i + 1])| ==
            |Carrying(cfg, rows[..i])| + if CandidateOf(cfg, rows[i].payloadHex).Some? then 1 else 0
  {
    hide CandidateOf;
    assert Carrying(cfg, rows[..i + 1]) ==
           Carrying(cfg, rows[..i]) + if CandidateOf(cfg, rows[i].payloadHex).Some? then {i} else {};
  }

  lemma CountQualifying(cfg: Config, rows: seq<RawPacket>, i: nat)
    requires i < |rows|
    ensures var qualifies := CandidateOf(cfg, rows[i].payloadHex).Some?
                             && IsWeekday(cfg.policy.zone, cfg.policy.target, rows[i].observedAt);
            |Qualifying(cfg, rows[..i + 1])| == |Qualifying(cfg, rows[..i])| + if qualifies then 1 else 0
  {
    hide CandidateOf, IsWeekday;
    var qualifies := CandidateOf(cfg, rows[i].payloadHex).Some?
                     && IsWeekday(cfg.policy.zone, cfg.policy.target, rows[i].observedAt);
    assert Qualifying(cfg, rows[..i + 1]) == Qualifying(cfg, rows[..i]) + if qualifies then {i} else {};
  }

  lemma CountNone(cfg: Config)
    ensures Decoded([]) == {} && Carrying(cfg, []) == {} && Qualifying(cfg, []) == {}
  {
  }

  /** Only links have been added since `before`, and only ones due to these rows. */
  ghost predicate OnlyLinksAdded(rules: Rules, before: Db, after: Db, rows: seq<RawPacket>) {
    && after == before.(links := after.links)
    && before.links <= after.links
    && LinkKeys(after) <= LinkKeys(before) + QualifyingKeys(rules, rows)
  }

  class Service {
    const cfg: Config
    const env: Environment
    const store: SQLiteStore

    constructor (cfg: Config, env: Environment, store: SQLiteStore)
      ensures this.cfg == cfg && this.env == env && this.store == store
    {
      this.cfg, this.env, this.store := cfg, env, store;
    }

    /** Runs a statement until it succeeds, fails for another reason than a busy database, or has
        been tried sixteen times. */
    method WithBusyRetry(s: Statement) returns (outcome: Outcome, err: Error)
      modifies store
      ensures err == NoError ==> outcome == OutcomeOf(old(store.db), s) != Refused && store.db == EffectOf(old(store.db), s)
      ensures err != NoError ==> store.db == old(store.db)
      ensures old(store.log) <= store.log && Reported(old(store.log), store.log, err)
      ensures Tried(store.log[|old(store.log)|..], s, err == NoError)
    {
      hide OutcomeOf, EffectOf;
      var attempt := 0;
      ghost var before := store.log;
      while true
        invariant 0 <= attempt <= BUSY_RETRY_ATTEMPTS
        invariant store.db == old(store.db)
        invariant before <= store.log && |store.log| == |before| + attempt
        invariant forall i :: |before| <= i < |store.log| ==> store.log[i] == Ran(s, Busy)
        decreases BUSY_RETRY_ATTEMPTS - attempt
      {
        outcome, err := store.Exec(s);
        if err == NoError || err != Busy || attempt == BUSY_RETRY_ATTEMPTS {
          return;
        }
        var cancelled := store.ContextDone();
        if cancelled {
          err := Cancelled;
          return;
        }
        attempt := attempt + 1;
      }
    }

    /** The checks made before anything is stored, cheapest first. */
    method Receive(topic: string, payload: string, nanos: int) returns (d: Option<Delivery>, packet: Option<Packet>)
      ensures d == Prepare(cfg, env, topic, payload, nanos)
      ensures d.Some? ==> packet.Some? && Decode(d.value.payloadHex) == Ok(packet.value)
    {
      d, packet := None, None;
      var observedAt := nanos / 1_000_000_000;
      if !IsWeekday(cfg.policy.zone, cfg.policy.target, observedAt) {
        return;
      }
      var parsed := ParseTopic(env, topic);
      if parsed.None? {
        return;
      }
      var body := DecodeIncomingEnvelope(cfg, env, payload, parsed.value.1);
      if body.None? {
        return;
      }
      var decoded := DecodePacket(body.value.0);
      if decoded.Err? {
        return;
      }
      var packetHash := HashPacket(cfg.prim.lower, cfg.prim.digest, body.value.0);
      d := Some(Delivery(packetHash, parsed.value.0, body.value.1, body.value.0, observedAt));
      packet := Some(decoded.value);
    }

    /** Handles one message.  Whichever statements fail, the store ends as the stepwise model's
        handler leaves it when run to its end, and a statement counts as failed only if the database
        said so; a message that is not accepted changes nothing.  A new packet is stored with all it
        calls for unless something went wrong.  A store in order stays in order, and loses no
        check-in and no link. */
    method HandleMessage(topic: string, payload: string, nanos: int)
      returns (ghost script: seq<Attempt>, ghost marks: seq<nat>)
      modifies store
      ensures Prepare(cfg, env, topic, payload, nanos).None? ==> store.db == old(store.db) && store.log == old(store.log)
      ensures Prepare(cfg, env, topic, payload, nanos).Some? ==>
                var d := Prepare(cfg, env, topic, payload, nanos).value;
                var (db, h) := Settle(RulesOf(cfg), old(store.db), Handler(d, AtRaw), script);
                && store.db == db && h.pc.Finished?
                && Faithful(RulesOf(cfg), d, old(store.log), store.log, script, marks)
      ensures var prepared := Prepare(cfg, env, topic, payload, nanos);
              prepared.Some? && WellFormed(old(store.db)) && !HasRaw(old(store.db), prepared.value.hash)
              && Untroubled(old(store.log), store.log) ==>
                Stores(RulesOf(cfg), prepared.value, old(store.db), store.db)
      ensures WellFormed(old(store.db)) && CheckinsLinked(old(store.db)) ==> Kept(old(store.db), store.db)
    {
      hide *;
      script, marks := [], [];
      HandlingKeepsStore(cfg, env, topic, payload, nanos, store.db);
      var delivery, packet := Receive(topic, payload, nanos);
      if delivery.None? {
        return;
      }
      script, marks := StorePacket(delivery.value, packet.value);
      if WellFormed(old(store.db)) && !HasRaw(old(store.db), delivery.value.hash) && Untroubled(old(store.log), store.log) {
        UntroubledStores(RulesOf(cfg), old(store.db), delivery.value, old(store.log), store.log, script, marks);
      }
    }

    /** The four statements for a packet that has been received, each with its retries. */
    method StorePacket(d: Delivery, packet: Packet) returns (ghost script: seq<Attempt>, ghost marks: seq<nat>)
      requires Decode(d.payloadHex) == Ok(packet)
      modifies store
      ensures var (db, h) := Settle(RulesOf(cfg), old(store.db), Handler(d, AtRaw), script);
              store.db == db && h.pc.Finished?
      ensures Faithful(RulesOf(cfg), d, old(store.log), store.log, script, marks)
    {
      hide Settle, RulesOf, ExtractFromPacket, Decode, HashPacket, WeekDate, LocalDay, Faithful, Tried, Reported;
      script, marks := [], [|store.log|];
      ghost var rules := RulesOf(cfg);
      ghost var start := Handler(d, AtRaw);
      ghost var db0 := store.db;
      RulesFields(cfg, d.payloadHex);
      SettleNothing(rules, db0, start);
      FaithfulStart(rules, d, store.log);
      CandidateOfDecoded(cfg, d.payloadHex);

      var outcome, err;
      ghost var seen := store.log;
      outcome, err := WithBusyRetry(RawInsert(d.hash, d.iata, d.payloadHex, d.observedAt));
      ghost var done := Attempt(err == NoError, 0);
      SettleOneMore(rules, db0, start, script, done);
      FaithfulNext(rules, d, old(store.log), seen, store.log, script, marks, done);
      script, marks := script + [done], marks + [|store.log|];
      if err != NoError {
        return;
      }
      var inserted := outcome == Stored;

      seen := store.log;
      outcome, err := WithBusyRetry(ObservationInsert(Observation(d.hash, d.observer, d.observedAt)));
      done := Attempt(err == NoError, 0);
      SettleOneMore(rules, db0, start, script, done);
      FaithfulNext(rules, d, old(store.log), seen, store.log, script, marks, done);
      script, marks := script + [done], marks + [|store.log|];
      if !inserted {
        return;
      }
      var candidate := ExtractFromPacket(cfg.prim, packet.payloadType, packet.payloadHex, cfg.channelKeys, cfg.hashtag);
      if candidate.None? {
        return;
      }

      var weekStart := WeekDate(cfg.policy.zone, cfg.policy.target, d.observedAt);
      var checkinDate := LocalDay(cfg.policy.zone, d.observedAt);
      var now: int := *;
      seen := store.log;
      outcome, err := WithBusyRetry(LinkInsert(Link(weekStart, candidate.value.username, d.hash, now)));
      done := Attempt(err == NoError, now);
      SettleOneMore(rules, db0, start, script, done);
      FaithfulNext(rules, d, old(store.log), seen, store.log, script, marks, done);
      script, marks := script + [done], marks + [|store.log|];
      if err != NoError {
        return;
      }
      now := *;
      seen := store.log;
      outcome, err := WithBusyRetry(CheckinInsert(
        Checkin(0, d.hash, candidate.value.username, candidate.value.displayName, candidate.value.message, d.iata,
                checkinDate, weekStart, now)));
      done := Attempt(err == NoError, now);
      SettleOneMore(rules, db0, start, script, done);
      FaithfulNext(rules, d, old(store.log), seen, store.log, script, marks, done);
      script, marks := script + [done], marks + [|store.log|];
    }

    /** Rebuilds links from the stored raw packets, with no other writer.

        Unless an insert fails it adds exactly the links that qualifying rows are due; if they are
        all there it adds nothing. */
    method RestoreCheckinPacketsFromRaw() returns (result: RestoreResult, err: Error)
      modifies store
      ensures result.rawScanned == result.decoded + result.decodeErrors
      ensures result.linksInserted + result.insertLinkErrors <= result.qualifyingCheckins <= result.decoded
      ensures OnlyLinksAdded(RulesOf(cfg), old(store.db), store.db, old(store.db).raw)
      ensures |store.db.links| == |old(store.db).links| + result.linksInserted
      ensures result.rawScanned <= |old(store.db).raw|
      ensures var rows := old(store.db).raw[..result.rawScanned];
              && result.decoded == |Decoded(rows)|
              && result.checkinsFound == (if cfg.hashtag == "" then 0 else |Carrying(cfg, rows)|)
              && result.qualifyingCheckins == |Qualifying(cfg, rows)|
      ensures old(store.log) <= store.log && result.insertLinkErrors == |Failures(store.log[|old(store.log)|..])|
      ensures err != NoError ==> Reported(old(store.log), store.log, err)
      ensures err == NoError ==>
                && result.rawScanned == |old(store.db).raw|
                && QualifyingKeys(RulesOf(cfg), old(store.db).raw) <= LinkKeys(store.db) + FailedKeys(store.log[|old(store.log)|..])
      ensures err == NoError && result.insertLinkErrors == 0 ==>
                LinkKeys(store.db) == LinkKeys(old(store.db)) + QualifyingKeys(RulesOf(cfg), old(store.db).raw)
      ensures QualifyingKeys(RulesOf(cfg), old(store.db).raw) <= LinkKeys(old(store.db)) ==>
                result.linksInserted == 0 && store.db == old(store.db)
    {
      hide *;
      ghost var rules := RulesOf(cfg);
      ghost var before := store.db;
      result := RestoreResult(0, 0, 0, 0, 0, 0, 0);
      err := NoError;
      var now: int := *;
      var rows := store.db.raw;
      var i := 0;
      ghost var log0 := store.log;
      NothingRestoredYet(rules, before, rows);
      CountNone(cfg);
      assert rows[..0] == [];
      assert store.log[|log0|..] == [];
      while i < |rows|
        invariant 0 <= i <= |rows| && result.rawScanned == i
        invariant result.rawScanned == result.decoded + result.decodeErrors
        invariant result.linksInserted + result.insertLinkErrors <= result.qualifyingCheckins <= result.decoded
        invariant result.decoded == |Decoded(rows[..i])| && result.qualifyingCheckins == |Qualifying(cfg, rows[..i])|
        invariant result.checkinsFound == if cfg.hashtag == "" then 0 else |Carrying(cfg, rows[..i])|
        invariant log0 <= store.log && err == NoError
        invariant result.insertLinkErrors == |Failures(store.log[|log0|..])|
        invariant Restored(rules, before, store.db, rows, i, result.linksInserted, store.log[|log0|..])
      {
        ghost var seen := store.log;
        err := store.Ask();
        ErrorsAre(err);
        JustReported(log0, seen, Asked(err));
        assert store.log[|log0|..] == seen[|log0|..] + [Asked(err)];
        ReadingIsNoFailure(seen[|log0|..], err);
        RestoredKeepsReading(rules, before, store.db, rows, i, result.linksInserted, seen[|log0|..], err);
        if err != NoError {
          break;
        }
        seen := store.log;
        ghost var events := seen[|log0|..];
        var row := rows[i];
        RestoreLinkOf(cfg, row, now);
        CandidateOfDecoded(cfg, row.payloadHex);
        CountDecoded(rows, i);
        CountCarrying(cfg, rows, i);
        CountQualifying(cfg, rows, i);
        result := result.(rawScanned := result.rawScanned + 1);
        i := i + 1;
        var packet := DecodePacket(row.payloadHex);
        if packet.Err? {
          result := result.(decodeErrors := result.decodeErrors + 1);
          RowSkipped(rules, before, store.db, rows, i - 1, now, result.linksInserted, events);
          continue;
        }
        result := result.(decoded := result.decoded + 1);
        var candidate := ExtractFromPacket(cfg.prim, packet.value.payloadType, packet.value.payloadHex,
                                           cfg.channelKeys, cfg.hashtag);
        if candidate.None? {
          RowSkipped(rules, before, store.db, rows, i - 1, now, result.linksInserted, events);
          continue;
        }
        if cfg.hashtag != "" {
          result := result.(checkinsFound := result.checkinsFound + 1);
        }
        if !IsWeekday(cfg.policy.zone, cfg.policy.target, row.observedAt) {
          RowSkipped(rules, before, store.db, rows, i - 1, now, result.linksInserted, events);
          continue;
        }
        result := result.(qualifyingCheckins := result.qualifyingCheckins + 1);
        var link := Link(WeekDate(cfg.policy.zone, cfg.policy.target, row.observedAt), candidate.value.username, row.hash, now);
        LinkStatement(store.db, link);
        RowHandled(rules, before, store.db, rows, i - 1, link, result.linksInserted, events);
        var outcome, error := store.Exec(LinkInsert(link));
        assert store.log[|log0|..] == events + [Ran(LinkInsert(link), error)];
        LinkEvent(events, link, error);
        if error != NoError {
          result := result.(insertLinkErrors := result.insertLinkErrors + 1);
        } else if outcome == Stored {
          result := result.(linksInserted := result.linksInserted + 1);
        }
      }
      assert rows[..|rows|] == rows;
      AllRestored(rules, before, store.db, rows, i, result.linksInserted, store.log[|log0|..]);
    }
  }

  // ----- the restore loop's reasoning

  /** The positions in a log of link inserts that failed, and the links they were to store. */
  function Failures(events: seq<Event>): set<int> {
    set i | 0 <= i < |events| && events[i].Ran? && events[i].statement.LinkInsert? && events[i].err != NoError
  }

  function FailedKeys(events: seq<Event>): set<(int, string, string)> {
    set i | i in Failures(events) :: KeyOf(events[i].statement.link)
  }

  lemma ReadingIsNoFailure(events: seq<Event>, err: Error)
    ensures Failures(events + [Asked(err)]) == Failures(events)
    ensures FailedKeys(events + [Asked(err)]) == FailedKeys(events)
  {
  }

  lemma LinkEvent(events: seq<Event>, link: Link, err: Error)
    ensures var after := events + [Ran(LinkInsert(link), err)];
            |Failures(after)| == |Failures(events)| + if err == NoError then 0 else 1
  {
    var after := events + [Ran(LinkInsert(link), err)];
    assert Failures(after) == Failures(events) + if err == NoError then {} else {|events|};
  }

  lemma FailedKeysNext(events: seq<Event>, link: Link, err: Error)
    ensures var after := events + [Ran(LinkInsert(link), err)];
            FailedKeys(after) == FailedKeys(events) + if err == NoError then {} else {KeyOf(link)}
  {
    var after := events + [Ran(LinkInsert(link), err)];
    assert Failures(after) == Failures(events) + if err == NoError then {} else {|events|};
    assert forall i :: i in Failures(events) ==> after[i] == events[i];
    assert after[|events|].statement.link == link;
  }

  lemma NoFailures()
    ensures Failures([]) == {} && FailedKeys([]) == {}
  {
  }

  /** The first `i` rows have been dealt with: `inserted` links added, and those of `events` failed. */
  ghost predicate Restored(rules: Rules, before: Db, db: Db, rows: seq<RawPacket>, i: nat, inserted: nat, events: seq<Event>)
    requires i <= |rows|
  {
    && OnlyLinksAdded(rules, before, db, rows)
    && |db.links| == |before.links| + inserted
    && QualifyingKeys(rules, rows[..i]) <= LinkKeys(db) + FailedKeys(events)
    && (QualifyingKeys(rules, rows) <= LinkKeys(before) ==> inserted == 0 && db == before)
  }

  lemma NothingRestoredYet(rules: Rules, before: Db, rows: seq<RawPacket>)
    ensures Restored(rules, before, before, rows, 0, 0, [])
    ensures |Failures([])| == 0
  {
    NoFailures();
  }

  lemma RestoredKeepsReading(rules: Rules, before: Db, db: Db, rows: seq<RawPacket>, i: nat, inserted: nat, events: seq<Event>, err: Error)
    requires i <= |rows| && Restored(rules, before, db, rows, i, inserted, events)
    ensures Restored(rules, before, db, rows, i, inserted, events + [Asked(err)])
  {
    ReadingIsNoFailure(events, err);
  }

  lemma AllRestored(rules: Rules, before: Db, db: Db, rows: seq<RawPacket>, i: nat, inserted: nat, events: seq<Event>)
    requires i <= |rows| && Restored(rules, before, db, rows, i, inserted, events)
    ensures OnlyLinksAdded(rules, before, db, rows)
    ensures |db.links| == |before.links| + inserted
    ensures i == |rows| ==> QualifyingKeys(rules, rows) <= LinkKeys(db) + FailedKeys(events)
    ensures i == |rows| && |Failures(events)| == 0 ==> LinkKeys(db) == LinkKeys(before) + QualifyingKeys(rules, rows)
    ensures QualifyingKeys(rules, rows) <= LinkKeys(before) ==> inserted == 0 && db == before
  {
    if |Failures(events)| == 0 {
      assert FailedKeys(events) == {};
    }
    if i == |rows| {
      assert rows[..i] == rows;
    }
  }

  function KeyOf(l: Link): (int, string, string) {
    (l.weekStart, l.username, l.hash)
  }

  /** The keys due to a prefix of the rows grow by at most the key of the next row. */
  lemma NextRow(rules: Rules, rows: seq<RawPacket>, i: nat, at: int)
    requires i < |rows|
    ensures var l := RestoreLink(rules, rows[i], at);
            var due := if l.Some? then {KeyOf(l.value)} else {};
            && QualifyingKeys(rules, rows[..i + 1]) == QualifyingKeys(rules, rows[..i]) + due
            && due <= QualifyingKeys(rules, rows)
  {
  }

  lemma RowSkipped(rules: Rules, before: Db, db: Db, rows: seq<RawPacket>, i: nat, at: int, inserted: nat, events: seq<Event>)
    requires i < |rows| && Restored(rules, before, db, rows, i, inserted, events)
    requires RestoreLink(rules, rows[i], at).None?
    ensures Restored(rules, before, db, rows, i + 1, inserted, events)
  {
    NextRow(rules, rows, i, at);
  }

  lemma LinkInserted(db: Db, link: Link)
    ensures LinkOutcome(db, link) == Stored ==>
              && LinkKeys(InsertLink(db, link)) == LinkKeys(db) + {KeyOf(link)}
              && |InsertLink(db, link).links| == |db.links| + 1
              && KeyOf(link) !in LinkKeys(db)
    ensures LinkOutcome(db, link) == Ignored ==> KeyOf(link) in LinkKeys(db)
  {
  }

  /** The next row's link is stored, found there already, or fails. */
  lemma RowHandled(rules: Rules, before: Db, db: Db, rows: seq<RawPacket>, i: nat, link: Link, inserted: nat, events: seq<Event>)
    requires i < |rows| && Restored(rules, before, db, rows, i, inserted, events)
    requires RestoreLink(rules, rows[i], link.createdAt) == Some(link)
    ensures forall err :: err != NoError ==>
              Restored(rules, before, db, rows, i + 1, inserted, events + [Ran(LinkInsert(link), err)])
    ensures LinkOutcome(db, link) == Stored ==>
              Restored(rules, before, InsertLink(db, link), rows, i + 1, inserted + 1, events + [Ran(LinkInsert(link), NoError)])
    ensures LinkOutcome(db, link) == Ignored ==>
              InsertLink(db, link) == db
              && Restored(rules, before, db, rows, i + 1, inserted, events + [Ran(LinkInsert(link), NoError)])
  {
    hide RestoreLink, QualifyingKeys, LinkKeys, LinkOutcome, FailedKeys;
    NextRow(rules, rows, i, link.createdAt);
    LinkInserted(db, link);
    forall err {
      FailedKeysNext(events, link, err);
    }
  }
}
