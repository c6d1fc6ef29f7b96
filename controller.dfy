/**
 * controller.py's game logic outside the user interface: the event log a
 * player keeps for peer-to-peer play, the client that trades those events
 * with the opponent through the C bridge, the command-line options for
 * peer-to-peer play, and the throttle that decides when the AIs act.
 *
 * JSON is not modelled: encoding is a function `dumps` from a record to
 * text and decoding a function `loads` from text to a value or a failure,
 * both passed in.  Clock readings are parameters: timestamps as the text
 * `isoformat` gives, game time in integer milliseconds.
 */
module Controller {
  import opened Wrappers
  import opened Text
  import Net
  import Grid
  import Units
  import Economy
  import Strategy

  /**
   * A JSON value as far as the client looks into one; `JOther` stands for
   * null, a boolean, a float or an array.
   */
  datatype Json = JInt(i: int) | JStr(s: string) | JObject(fields: map<string, Json>) | JOther

  /** A JSON object: a Python dictionary with string keys. */
  type Record = map<string, Json>

  /** What `json.loads` makes of a text: a value, or the `JSONDecodeError` the client catches. */
  datatype Decoded = Undecodable | Decoded(value: Json)

  /** A logged event: its type, the side that logged it, when, and its data. */
  datatype Event = Event(kind: string, player: string, timestamp: string, data: Record)

  /** The dictionary `log_event` builds for an event, which is what gets sent. */
  function EventRecord(e: Event): Record
  {
    map["type" := JStr(e.kind), "player" := JStr(e.player), "timestamp" := JStr(e.timestamp), "data" := JObject(e.data)]
  }

  /** The message types the client takes for the opponent's events. */
  const EventTypes: set<string> := {"UNIT_MOVE", "BUILDING_CONSTRUCT", "UNIT_CREATE", "RESOURCE_GATHER", "ATTACK"}

  /** `EventLogger`: the events this side has logged, oldest first. */
  class EventLogger {
    const playerSide: string
    var events: seq<Event>

    /** Every logged event carries this side. */
    ghost predicate Valid()
      reads this
    {
      forall e :: e in events ==> e.player == playerSide
    }

    /** `EventLogger(player_side)`: nothing logged yet. */
    constructor (playerSide: string)
      ensures this.playerSide == playerSide && events == [] && Valid()
    {
      this.playerSide := playerSide;
      events := [];
    }

    /** `log_event` at clock reading `timestamp`: exactly one record, of this side, is appended and returned. */
    method LogEvent(kind: string, data: Record, timestamp: string) returns (e: Event)
      requires Valid()
      modifies this`events
      ensures e == Event(kind, playerSide, timestamp, data)
      ensures events == old(events) + [e] && Valid()
    {
      e := Event(kind, playerSide, timestamp, data);
      events := events + [e];
    }

    /** `log_unit_movement`. */
    method LogUnitMovement(unitId: int, x: int, y: int, timestamp: string) returns (e: Event)
      requires Valid()
      modifies this`events
      ensures e == Event("UNIT_MOVE", playerSide, timestamp, map["unit_id" := JInt(unitId), "x" := JInt(x), "y" := JInt(y)])
      ensures events == old(events) + [e] && Valid()
    {
      e := LogEvent("UNIT_MOVE", map["unit_id" := JInt(unitId), "x" := JInt(x), "y" := JInt(y)], timestamp);
    }

    /** `log_building_construction`. */
    method LogBuildingConstruction(buildingType: string, x: int, y: int, timestamp: string) returns (e: Event)
      requires Valid()
      modifies this`events
      ensures e == Event("BUILDING_CONSTRUCT", playerSide, timestamp, map["type" := JStr(buildingType), "x" := JInt(x), "y" := JInt(y)])
      ensures events == old(events) + [e] && Valid()
    {
      e := LogEvent("BUILDING_CONSTRUCT", map["type" := JStr(buildingType), "x" := JInt(x), "y" := JInt(y)], timestamp);
    }

    /** `log_resource_gathering`. */
    method LogResourceGathering(resourceType: string, amount: int, timestamp: string) returns (e: Event)
      requires Valid()
      modifies this`events
      ensures e == Event("RESOURCE_GATHER", playerSide, timestamp, map["resource" := JStr(resourceType), "amount" := JInt(amount)])
      ensures events == old(events) + [e] && Valid()
    {
      e := LogEvent("RESOURCE_GATHER", map["resource" := JStr(resourceType), "amount" := JInt(amount)], timestamp);
    }

    /** `log_unit_creation`. */
    method LogUnitCreation(unitType: string, x: int, y: int, timestamp: string) returns (e: Event)
      requires Valid()
      modifies this`events
      ensures e == Event("UNIT_CREATE", playerSide, timestamp, map["type" := JStr(unitType), "x" := JInt(x), "y" := JInt(y)])
      ensures events == old(events) + [e] && Valid()
    {
      e := LogEvent("UNIT_CREATE", map["type" := JStr(unitType), "x" := JInt(x), "y" := JInt(y)], timestamp);
    }

    /** `log_attack`. */
    method LogAttack(attackerId: int, targetId: int, timestamp: string) returns (e: Event)
      requires Valid()
      modifies this`events
      ensures e == Event("ATTACK", playerSide, timestamp, map["attacker" := JInt(attackerId), "target" := JInt(targetId)])
      ensures events == old(events) + [e] && Valid()
    {
      e := LogEvent("ATTACK", map["attacker" := JInt(attackerId), "target" := JInt(targetId)], timestamp);
    }

    /** `get_events`: everything logged since the last clear, oldest first, all of this side. */
    method GetEvents() returns (es: seq<Event>)
      requires Valid()
      ensures es == events
      ensures forall e :: e in es ==> e.player == playerSide
    {
      es := events;
    }

    /** `clear_events`: the log is emptied. */
    method ClearEvents()
      modifies this`events
      ensures events == [] && Valid()
    {
      events := [];
    }
  }

  /** A record did not come from `side`: its `player` is missing or is something else. */
  predicate FromOpponent(rec: Record, side: string)
  {
    !("player" in rec && rec["player"] == JStr(side))
  }

  /** What `poll` has made of a run of messages: the records kept, and whether it stopped on an `AttributeError`. */
  datatype Outcome = Outcome(events: seq<Record>, raised: bool)

  /** An event message whose payload decodes to JSON that is not an object, on which `.get` raises. */
  predicate Faulty(msg: Net.Message, loads: string -> Decoded)
  {
    msg.0 in EventTypes && loads(msg.1).Decoded? && !loads(msg.1).value.JObject?
  }

  /** An event message whose payload decodes to an object that did not come from `side`. */
  predicate Kept(msg: Net.Message, side: string, loads: string -> Decoded)
  {
    msg.0 in EventTypes && loads(msg.1).Decoded? && loads(msg.1).value.JObject?
    && FromOpponent(loads(msg.1).value.fields, side)
  }

  /** `poll`'s handling of one message after the records `kept`. */
  function Take(kept: seq<Record>, msg: Net.Message, side: string, loads: string -> Decoded): Outcome
  {
    if msg.0 !in EventTypes then Outcome(kept, false)
    else match loads(msg.1)
      case Undecodable => Outcome(kept, false)
      case Decoded(v) =>
        if !v.JObject? then Outcome(kept, true)
        else if FromOpponent(v.fields, side) then Outcome(kept + [v.fields], false)
        else Outcome(kept, false)
  }

  /**
   * The records `poll` keeps from `msgs`, in order, up to the first faulty
   * message, after which the rest are lost with the exception.
   */
  function Accept(msgs: seq<Net.Message>, side: string, loads: string -> Decoded): (r: Outcome)
    ensures forall rec :: rec in r.events ==> FromOpponent(rec, side)
    ensures |r.events| <= |msgs|
  {
    if msgs == [] then Outcome([], false)
    else
      var before := Accept(msgs[..|msgs| - 1], side, loads);
      if before.raised then before else Take(before.events, msgs[|msgs| - 1], side, loads)
  }

  /** Handling two runs of messages one after the other is handling them together. */
  lemma {:induction false} AcceptAppend(a: seq<Net.Message>, b: seq<Net.Message>, side: string, loads: string -> Decoded)
    ensures Accept(a + b, side, loads)
      == if Accept(a, side, loads).raised then Accept(a, side, loads)
         else Outcome(Accept(a, side, loads).events + Accept(b, side, loads).events, Accept(b, side, loads).raised)
    decreases |b|
  {
    if b == [] {
      assert a + b == a;
    } else {
      var b' := b[..|b| - 1];
      assert (a + b)[..|a + b| - 1] == a + b';
      assert (a + b)[|a + b| - 1] == b[|b| - 1];
      AcceptAppend(a, b', side, loads);
    }
  }

  /** Handling one more message. */
  lemma AcceptSnoc(msgs: seq<Net.Message>, i: int, side: string, loads: string -> Decoded)
    requires 0 <= i < |msgs|
    ensures Accept(msgs[..i + 1], side, loads)
      == if Accept(msgs[..i], side, loads).raised then Accept(msgs[..i], side, loads)
         else Take(Accept(msgs[..i], side, loads).events, msgs[i], side, loads)
  {
    assert msgs[..i + 1][..i] == msgs[..i];
  }

  /** Once a message raises, the messages after it are never looked at. */
  lemma {:induction false} AcceptStops(msgs: seq<Net.Message>, n: int, side: string, loads: string -> Decoded)
    requires 0 <= n <= |msgs| && Accept(msgs[..n], side, loads).raised
    ensures Accept(msgs, side, loads) == Accept(msgs[..n], side, loads)
    decreases |msgs|
  {
    if n < |msgs| {
      var init := msgs[..|msgs| - 1];
      assert init[..n] == msgs[..n];
      AcceptStops(init, n, side, loads);
    } else {
      assert msgs[..n] == msgs;
    }
  }

  /** `poll` raises exactly when some event message decodes to something other than an object. */
  lemma {:induction false} AcceptRaises(msgs: seq<Net.Message>, side: string, loads: string -> Decoded)
    ensures Accept(msgs, side, loads).raised <==> exists i :: 0 <= i < |msgs| && Faulty(msgs[i], loads)
  {
    if msgs != [] {
      var init := msgs[..|msgs| - 1];
      AcceptRaises(init, side, loads);
      if exists i :: 0 <= i < |init| && Faulty(init[i], loads) {
        var i :| 0 <= i < |init| && Faulty(init[i], loads);
        assert msgs[i] == init[i];
      }
      if exists i :: 0 <= i < |msgs| && Faulty(msgs[i], loads) {
        var i :| 0 <= i < |msgs| && Faulty(msgs[i], loads);
        if i < |init| {
          assert Faulty(init[i], loads);
        }
      }
    }
  }

  /**
   * Unless `poll` raises, it keeps the record of every event message from
   * the opponent, and keeps nothing else.
   */
  lemma {:induction false} AcceptKeeps(msgs: seq<Net.Message>, side: string, loads: string -> Decoded)
    ensures !Accept(msgs, side, loads).raised ==>
      forall i :: 0 <= i < |msgs| && Kept(msgs[i], side, loads) ==> loads(msgs[i].1).value.fields in Accept(msgs, side, loads).events
    ensures forall rec :: rec in Accept(msgs, side, loads).events ==>
      exists i :: 0 <= i < |msgs| && Kept(msgs[i], side, loads) && loads(msgs[i].1).value.fields == rec
  {
    if msgs != [] {
      var init := msgs[..|msgs| - 1];
      var last := msgs[|msgs| - 1];
      AcceptKeeps(init, side, loads);
      var before := Accept(init, side, loads);
      var r := Accept(msgs, side, loads);
      if !r.raised {
        forall i | 0 <= i < |msgs| && Kept(msgs[i], side, loads)
          ensures loads(msgs[i].1).value.fields in r.events
        {
          if i < |init| {
            assert msgs[i] == init[i];
          }
        }
      }
      forall rec | rec in r.events
        ensures exists i :: 0 <= i < |msgs| && Kept(msgs[i], side, loads) && loads(msgs[i].1).value.fields == rec
      {
        if rec in before.events {
          var i :| 0 <= i < |init| && Kept(init[i], side, loads) && loads(init[i].1).value.fields == rec;
          assert msgs[i] == init[i];
        } else {
          assert Kept(msgs[|msgs| - 1], side, loads) && loads(last.1).value.fields == rec;
        }
      }
    }
  }

  /** An event type's name is a non-empty text with no `|` that starts with no whitespace. */
  lemma EventTypeShape(kind: string)
    requires kind in EventTypes
    ensures '|' !in kind && kind != [] && !IsSpace(kind[0])
  {
  }

  /**
   * An event sent by one side, as `send_event` frames it, lands in the
   * other side's inbox, provided the JSON codec reads back what it wrote
   * and writes text with no whitespace at its ends.
   */
  lemma EventDelivered(e: Event, side: string, dumps: Record -> string, loads: string -> Decoded)
    requires e.kind in EventTypes && e.player != side
    requires dumps(EventRecord(e)) != [] && Trimmed(dumps(EventRecord(e)))
    requires loads(dumps(EventRecord(e))) == Decoded(JObject(EventRecord(e)))
    ensures Accept([Net.Parse(Net.Frame(e.kind, dumps(EventRecord(e))))], side, loads) == Outcome([EventRecord(e)], false)
  {
    FrameRead(e, dumps);
    assert [Net.Parse(Net.Frame(e.kind, dumps(EventRecord(e))))][..0] == [];
  }

  /** Under the same conditions, a side's own event coming back to it is dropped. */
  lemma EchoDropped(e: Event, side: string, dumps: Record -> string, loads: string -> Decoded)
    requires e.kind in EventTypes && e.player == side
    requires dumps(EventRecord(e)) != [] && Trimmed(dumps(EventRecord(e)))
    requires loads(dumps(EventRecord(e))) == Decoded(JObject(EventRecord(e)))
    ensures Accept([Net.Parse(Net.Frame(e.kind, dumps(EventRecord(e))))], side, loads) == Outcome([], false)
  {
    FrameRead(e, dumps);
    assert [Net.Parse(Net.Frame(e.kind, dumps(EventRecord(e))))][..0] == [];
  }

  /** A sent event frame reads back as its type and its JSON text. */
  lemma FrameRead(e: Event, dumps: Record -> string)
    requires e.kind in EventTypes
    requires dumps(EventRecord(e)) != [] && Trimmed(dumps(EventRecord(e)))
    ensures Net.Parse(Net.Frame(e.kind, dumps(EventRecord(e)))) == (e.kind, dumps(EventRecord(e)))
  {
    var payload := dumps(EventRecord(e));
    EventTypeShape(e.kind);
    Net.FrameLayout(e.kind, payload);
    var f := Net.Frame(e.kind, payload);
    assert f[0] == e.kind[0] && f[|f| - 1] == payload[|payload| - 1];
    Net.ParseFrame(e.kind, payload);
  }

  /**
   * `P2PNetworkClient`: routes this side's events to the opponent through
   * a bridge client, which may be absent, and collects the opponent's.
   */
  class P2PClient {
    const network: Net.NetworkClient?
    const playerSide: string
    const logger: EventLogger
    /** The opponent's event records received and not yet consumed, oldest first. */
    var inbox: seq<Record>

    /** The log is this side's, and nothing in the inbox came from this side. */
    ghost predicate Valid()
      reads this, logger
    {
      logger.playerSide == playerSide && logger.Valid()
      && forall rec :: rec in inbox ==> FromOpponent(rec, playerSide)
    }

    /** `P2PNetworkClient(network_client, player_side)`: a fresh, empty log and an empty inbox. */
    constructor (network: Net.NetworkClient?, playerSide: string)
      ensures this.network == network && this.playerSide == playerSide
      ensures fresh(logger) && logger.events == [] && inbox == [] && Valid()
    {
      this.network := network;
      this.playerSide := playerSide;
      logger := new EventLogger(playerSide);
      inbox := [];
    }

    /**
     * `poll` at time `now`, with `datagrams` waiting for the bridge client:
     * the client polls and its inbox is drained; the opponent's event
     * records among the messages are appended to the inbox in order, until
     * a message whose JSON is not an object raises, losing the rest.
     * Without a bridge client nothing happens.
     */
    method Poll(datagrams: seq<string>, now: int, loads: string -> Decoded) returns (raised: bool)
      requires Valid()
      modifies this`inbox, network
      ensures Valid()
      ensures network == null ==> inbox == old(inbox) && !raised
      ensures network != null ==>
        var r := Accept(old(network.inbox) + Net.ParseAll(datagrams), playerSide, loads);
        inbox == old(inbox) + r.events && raised == r.raised && network.inbox == []
      ensures network != null ==>
        network.outbox == old(network.outbox)
        && network.lastMsgTime == (if datagrams == [] then old(network.lastMsgTime) else now)
        && network.connected
           == (if datagrams == [] then old(network.connected) && now - old(network.lastMsgTime) <= Net.LivenessTimeout
               else true)
    {
      raised := false;
      if network == null {
        return;
      }
      network.Poll(datagrams, now);
      var msgs := network.ConsumeMessages();
      raised := Absorb(msgs, loads);
    }

    /**
     * `poll`'s loop over the drained messages: the opponent's event records
     * are appended to the inbox in order, until a message whose JSON is not
     * an object raises.
     */
    method Absorb(msgs: seq<Net.Message>, loads: string -> Decoded) returns (raised: bool)
      requires Valid()
      modifies this`inbox
      ensures Valid()
      ensures inbox == old(inbox) + Accept(msgs, playerSide, loads).events
      ensures raised == Accept(msgs, playerSide, loads).raised
    {
      for i := 0 to |msgs|
        invariant inbox == old(inbox) + Accept(msgs[..i], playerSide, loads).events
        invariant !Accept(msgs[..i], playerSide, loads).raised
        invariant Valid()
      {
        AcceptSnoc(msgs, i, playerSide, loads);
        var (kind, payload) := msgs[i];
        if kind in EventTypes {
          var d := loads(payload);
          if d.Decoded? {
            if !d.value.JObject? {
              AcceptStops(msgs, i + 1, playerSide, loads);
              return true;
            }
            if FromOpponent(d.value.fields, playerSide) {
              inbox := inbox + [d.value.fields];
            }
          }
        }
      }
      assert msgs[..|msgs|] == msgs;
      return false;
    }

    /**
     * `send_event`: with a connected bridge client, the event's record is
     * sent as JSON under the event's type; otherwise nothing is sent.
     */
    method SendEvent(e: Event, dumps: Record -> string)
      modifies network
      ensures network != null ==>
        network.outbox
          == old(network.outbox) + (if old(network.connected) then [Net.Frame(e.kind, dumps(EventRecord(e)))] else [])
      ensures network != null ==>
        network.inbox == old(network.inbox) && network.connected == old(network.connected)
        && network.lastMsgTime == old(network.lastMsgTime)
    {
      if network == null || !network.connected {
        return;
      }
      var msg := dumps(EventRecord(e));
      network.Send(e.kind, msg);
    }

    /** `consume_events`: the inbox's records, in order; the inbox is left empty. */
    method ConsumeEvents() returns (events: seq<Record>)
      requires Valid()
      modifies this`inbox
      ensures events == old(inbox) && inbox == [] && Valid()
      ensures forall rec :: rec in events ==> FromOpponent(rec, playerSide)
    {
      events := inbox;
      inbox := [];
    }

    /** `log_and_send`: the event is logged on this side, then sent as `send_event` sends it. */
    method LogAndSend(kind: string, data: Record, timestamp: string, dumps: Record -> string) returns (e: Event)
      requires Valid()
      modifies logger`events, network
      ensures Valid()
      ensures e == Event(kind, playerSide, timestamp, data) && logger.events == old(logger.events) + [e]
      ensures network != null ==>
        network.outbox
          == old(network.outbox) + (if old(network.connected) then [Net.Frame(kind, dumps(EventRecord(e)))] else [])
    {
      e := logger.LogEvent(kind, data, timestamp);
      SendEvent(e, dumps);
    }
  }

  /** The module-level settings `parse_p2p_arguments` may assign. */
  datatype Config = Config(p2p: bool, side: string, myPort: int, opponentPort: int, opponentHost: string)

  /** The settings before any option is read. */
  const Defaults: Config := Config(false, "J1", 5000, 5001, "127.0.0.1")

  /** The options that take their value from the next argument. */
  const ValueFlags: set<string> := {"--player", "--my-port", "--opponent-port", "--opponent-host"}

  /**
   * The value option `flag` with value `v`: a side must be `J1` or `J2`, a
   * port must read as an integer, anything else leaves the setting alone.
   */
  function SetOption(c: Config, flag: string, v: string): Config
  {
    if flag == "--player" then (if v == "J1" || v == "J2" then c.(side := v) else c)
    else if flag == "--my-port" then (match ParseInt(v) case Some(p) => c.(myPort := p) case None => c)
    else if flag == "--opponent-port" then (match ParseInt(v) case Some(p) => c.(opponentPort := p) case None => c)
    else if flag == "--opponent-host" then c.(opponentHost := v)
    else c
  }

  /**
   * The source's handling of `argv[k]`.  Its guard `i + 1 < len(sys.argv)`
   * tests the option's own position, so it always holds, and a value
   * option in last position reads past the end: `None` is the
   * `IndexError`.  The host is only bound to a local name.
   */
  function StepAsWritten(c: Config, argv: seq<string>, k: nat): Option<Config>
    requires 1 <= k < |argv|
  {
    var arg := argv[k];
    if arg == "--p2p" then Some(c.(p2p := true))
    else if arg in ValueFlags then
      if k + 1 < |argv| then Some(if arg == "--opponent-host" then c else SetOption(c, arg, argv[k + 1]))
      else None
    else Some(c)
  }

  /** The source's loop over `argv[1..n]`, stopping at an exception. */
  function ParsedAsWritten(c: Config, argv: seq<string>, n: nat): Option<Config>
    requires n <= |argv|
  {
    if n <= 1 then Some(c)
    else match ParsedAsWritten(c, argv, n - 1)
      case None => None
      case Some(c') => StepAsWritten(c', argv, n - 1)
  }

  /** The intended handling of `argv[k]`: a value option takes effect only when a value follows it. */
  function StepFixed(c: Config, argv: seq<string>, k: nat): Config
    requires 1 <= k < |argv|
  {
    var arg := argv[k];
    if arg == "--p2p" then c.(p2p := true)
    else if arg in ValueFlags && k + 1 < |argv| then SetOption(c, arg, argv[k + 1])
    else c
  }

  /** The intended loop over `argv[1..n]`. */
  function ParsedFixed(c: Config, argv: seq<string>, n: nat): Config
    requires n <= |argv|
  {
    if n <= 1 then c else StepFixed(ParsedFixed(c, argv, n - 1), argv, n - 1)
  }

  /**
   * `parse_p2p_arguments` as written, over the command line `argv` and
   * the settings `init`: the settings it leaves, or `None` where it raises.
   */
  method ParseP2PArguments(argv: seq<string>, init: Config) returns (r: Option<Config>)
    ensures r == ParsedAsWritten(init, argv, |argv|)
  {
    var c := init;
    if |argv| <= 1 {
      return Some(c);
    }
    for k := 1 to |argv|
      invariant ParsedAsWritten(init, argv, k) == Some(c)
    {
      var arg := argv[k];
      if arg == "--p2p" {
        c := c.(p2p := true);
      } else if arg == "--player" && k < |argv| {
        if k + 1 >= |argv| {
          return None;
        }
        var player := argv[k + 1];
        if player == "J1" || player == "J2" {
          c := c.(side := player);
        }
      } else if arg == "--my-port" && k < |argv| {
        if k + 1 >= |argv| {
          return None;
        }
        match ParseInt(argv[k + 1]) {
          case Some(p) => c := c.(myPort := p);
          case None =>
        }
      } else if arg == "--opponent-port" && k < |argv| {
        if k + 1 >= |argv| {
          return None;
        }
        match ParseInt(argv[k + 1]) {
          case Some(p) => c := c.(opponentPort := p);
          case None =>
        }
      } else if arg == "--opponent-host" && k < |argv| {
        if k + 1 >= |argv| {
          return None;
        }
      }
    }
    return Some(c);
  }

  /** `parse_p2p_arguments` with the intended guard and the host assigned to the setting. */
  method ParseP2PArgumentsFixed(argv: seq<string>, init: Config) returns (c: Config)
    ensures c == ParsedFixed(init, argv, |argv|)
  {
    c := init;
    if |argv| <= 1 {
      return;
    }
    for k := 1 to |argv|
      invariant ParsedFixed(init, argv, k) == c
    {
      var arg := argv[k];
      if arg == "--p2p" {
        c := c.(p2p := true);
      } else if arg in ValueFlags && k + 1 < |argv| {
        c := SetOption(c, arg, argv[k + 1]);
      }
    }
  }

  /** Before the last argument, the source agrees with the intended reading except for the host. */
  lemma {:induction false} AgreesBeforeLast(init: Config, argv: seq<string>, n: nat)
    requires n < |argv|
    ensures ParsedAsWritten(init, argv, n) == Some(ParsedFixed(init, argv, n).(opponentHost := init.opponentHost))
  {
    if n > 1 {
      AgreesBeforeLast(init, argv, n - 1);
    }
  }

  /**
   * The source raises exactly when the last argument is a value option;
   * otherwise it ends as the intended reading does, except that the host
   * keeps its initial value.
   */
  lemma AsWrittenOutcome(init: Config, argv: seq<string>)
    ensures ParsedAsWritten(init, argv, |argv|)
      == if |argv| >= 2 && argv[|argv| - 1] in ValueFlags then None
         else Some(ParsedFixed(init, argv, |argv|).(opponentHost := init.opponentHost))
  {
    if |argv| > 1 {
      AgreesBeforeLast(init, argv, |argv| - 1);
    }
  }

  /** The intended reading turns peer-to-peer play on exactly when it was on or `--p2p` is given. */
  lemma {:induction false} FixedP2P(init: Config, argv: seq<string>, n: nat)
    requires n <= |argv|
    ensures ParsedFixed(init, argv, n).p2p <==> init.p2p || exists k :: 1 <= k < n && argv[k] == "--p2p"
  {
    if n > 1 {
      FixedP2P(init, argv, n - 1);
    }
  }

  /** A side the intended reading sets is `J1` or `J2`, and came right after a `--player`. */
  lemma {:induction false} FixedSide(init: Config, argv: seq<string>, n: nat)
    requires n <= |argv|
    ensures var side := ParsedFixed(init, argv, n).side;
      side != init.side ==>
        (side == "J1" || side == "J2")
        && exists k :: 1 <= k < n && k + 1 < |argv| && argv[k] == "--player" && argv[k + 1] == side
  {
    if n > 1 {
      FixedSide(init, argv, n - 1);
    }
  }

  /** A port the intended reading sets was read from the decimal text right after its option. */
  lemma {:induction false} FixedPorts(init: Config, argv: seq<string>, n: nat)
    requires n <= |argv|
    ensures var c := ParsedFixed(init, argv, n);
      (c.myPort != init.myPort ==>
         exists k :: 1 <= k < n && k + 1 < |argv| && argv[k] == "--my-port" && ParseInt(argv[k + 1]) == Some(c.myPort))
      && (c.opponentPort != init.opponentPort ==>
         exists k :: 1 <= k < n && k + 1 < |argv| && argv[k] == "--opponent-port" && ParseInt(argv[k + 1]) == Some(c.opponentPort))
  {
    if n > 1 {
      FixedPorts(init, argv, n - 1);
      var before, after := ParsedFixed(init, argv, n - 1), ParsedFixed(init, argv, n);
      if after.myPort != before.myPort {
        assert argv[n - 1] == "--my-port" && n < |argv| && ParseInt(argv[n]) == Some(after.myPort);
      }
      if after.opponentPort != before.opponentPort {
        assert argv[n - 1] == "--opponent-port" && n < |argv| && ParseInt(argv[n]) == Some(after.opponentPort);
      }
    }
  }

  /** A host the intended reading sets is the argument right after an `--opponent-host`. */
  lemma {:induction false} FixedHost(init: Config, argv: seq<string>, n: nat)
    requires n <= |argv|
    ensures var host := ParsedFixed(init, argv, n).opponentHost;
      host != init.opponentHost ==>
        exists k :: 1 <= k < n && k + 1 < |argv| && argv[k] == "--opponent-host" && argv[k + 1] == host
  {
    if n > 1 {
      FixedHost(init, argv, n - 1);
    }
  }

  /** With the intended reading, a host given by the last two arguments is the host used. */
  lemma FixedHostLast(init: Config, argv: seq<string>)
    requires |argv| >= 3 && argv[|argv| - 2] == "--opponent-host"
    ensures ParsedFixed(init, argv, |argv|).opponentHost == argv[|argv| - 1]
  {
  }

  /** `update_game`'s throttle: the AIs act when more than `delay` has passed since the last update. */
  predicate Due(now: int, last: int, delay: int)
  {
    now - last > delay
  }

  /** The time `update_game` returns: the current time if the AIs acted, the previous update time if not. */
  function NextUpdateTime(now: int, last: int, delay: int): (t: int)
    ensures t == now || t == last
  {
    if Due(now, last, delay) then now else last
  }

  /** A unit stands where it stood, or on a neighbouring tile. */
  twostate predicate AtMostOneStep(u: Units.Unit)
    reads u
  {
    (u.x, u.y) == old((u.x, u.y)) || Grid.Adjacent(old((u.x, u.y)), (u.x, u.y))
  }

  /**
   * `update_game` at time `now`: when the throttle lets it through, the
   * strategy steps the player's units and AI, then, if there is an enemy
   * AI, the enemy's; the time returned is `now` if they acted and `last`
   * if not, and in that case nothing changes.  Each side's building list
   * is its AI's own, as every AI of the game is made from that list.
   */
  method UpdateGame(units: seq<Units.Unit>, buildings: seq<Grid.Building>, m: Grid.Map, ai: Economy.AI,
                    enemyUnits: seq<Units.Unit>, enemyBuildings: seq<Grid.Building>, enemyAi: Economy.AI?,
                    delay: int, last: int, now: int)
    returns (t: int)
    requires m.Valid() && ai.Valid() && buildings == ai.buildings
    requires forall u :: u in units ==> u.ai == ai && u.Valid() && m.InBounds((u.x, u.y))
    requires forall i, j :: 0 <= i < j < |units| ==> units[i] != units[j]
    requires enemyAi != null ==>
      enemyAi != ai && enemyAi.Valid() && enemyBuildings == enemyAi.buildings
      && (forall u :: u in enemyUnits ==> u.ai == enemyAi && u.Valid() && m.InBounds((u.x, u.y)))
      && forall i, j :: 0 <= i < j < |enemyUnits| ==> enemyUnits[i] != enemyUnits[j]
    modifies (set u | u in units), (set u | u in enemyUnits), m.grid, ai, enemyAi, Strategy.BuildingsOn(m)
    ensures t == NextUpdateTime(now, last, delay)
    ensures !Due(now, last, delay) ==>
      unchanged(ai, m.grid) && (enemyAi != null ==> unchanged(enemyAi)) && unchanged(set u | u in units) && unchanged(set u | u in enemyUnits)
      && unchanged(Strategy.BuildingsOn(m))
    ensures Due(now, last, delay) ==>
      ai.Valid() && ai.population == old(ai.population)
      && forall u :: u in units ==> u.Valid() && m.InBounds((u.x, u.y)) && AtMostOneStep(u)
    ensures Due(now, last, delay) && enemyAi != null ==>
      enemyAi.Valid() && enemyAi.population == old(enemyAi.population)
      && forall u :: u in enemyUnits ==> u.Valid() && m.InBounds((u.x, u.y)) && AtMostOneStep(u)
    ensures enemyAi == null ==> unchanged(set u | u in enemyUnits && u !in units)
  {
    if !Due(now, last, delay) {
      return last;
    }
    Strategy.Execute(units, buildings, m, ai, now);
    if enemyAi != null {
      forall b | b in Strategy.BuildingsOn(m)
        ensures b in old(Strategy.BuildingsOn(m)) || fresh(b)
      {
        var r, c :| 0 <= r < m.height && 0 <= c < m.width && m.grid[r, c].building == b;
        assert old(m.grid[r, c].building) == b || fresh(b);
      }
      Strategy.Execute(enemyUnits, enemyBuildings, m, enemyAi, now);
    }
    return now;
  }

  /**
   * Two updates the throttle lets through are more than `delay` apart: a
   * call within `delay` of the returned time does nothing.
   */
  lemma ThrottleSpacing(now: int, last: int, delay: int, later: int)
    requires Due(now, last, delay) && later - now <= delay
    ensures NextUpdateTime(later, NextUpdateTime(now, last, delay), delay) == NextUpdateTime(now, last, delay)
  {
  }
}
