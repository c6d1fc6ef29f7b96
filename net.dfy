/**
 * network.py: the link between the game and the C bridge.  Messages are
 * datagrams of text `type|payload`; the client keeps the messages it has
 * received in an inbox, and tracks whether the bridge is alive by the time
 * of the last datagram.
 *
 * The UDP socket is not modelled: `Poll` is handed the datagrams waiting on
 * it, already decoded to text, and `Send` records each datagram it would
 * send in `outbox`.  Times are integer milliseconds.
 */
module Net {
  import opened Wrappers
  import opened Text
  import opened Grid
  import Units
  import Economy

  /** How long the bridge may stay silent before the link counts as lost (2.0 s). */
  const LivenessTimeout: int := 2000

  /** A received message: its type and its payload. */
  type Message = (string, string)

  /** The datagram `send(msgType, payload)` emits: `type|payload`, or the bare type when the payload is empty. */
  function Frame(msgType: string, payload: string): string
  {
    if payload != "" then msgType + "|" + payload else msgType
  }

  /** Where the type, the separator and the payload sit in a frame. */
  lemma FrameLayout(msgType: string, payload: string)
    ensures var msg := Frame(msgType, payload);
      (payload == "" ==> msg == msgType)
      && (payload != "" ==>
            |msg| == |msgType| + 1 + |payload| && msg[|msgType|] == '|'
            && msg[..|msgType|] == msgType && msg[|msgType| + 1..] == payload)
  {
    var msg := Frame(msgType, payload);
    if payload != "" {
      assert msg[..|msgType|] == msgType;
      assert msg[|msgType| + 1..] == payload;
    }
  }

  /** The position of the first `|` in `s`, if any. */
  function FirstBar(s: string): (r: Option<nat>)
    ensures r.Some? ==> r.value < |s| && s[r.value] == '|' && '|' !in s[..r.value]
    ensures r.None? ==> '|' !in s
  {
    if s == [] then None
    else if s[0] == '|' then Some(0)
    else match FirstBar(s[1..])
      case None => None
      case Some(k) =>
        assert s[..k + 1] == [s[0]] + s[1..][..k];
        Some(k + 1)
  }

  /** `msg.split("|", 1)` as a pair: the text before the first `|` and after it, or `(msg, "")`. */
  function Split(msg: string): (m: Message)
    ensures '|' !in m.0
    ensures '|' in msg ==> msg == m.0 + "|" + m.1
    ensures '|' !in msg ==> m == (msg, "")
  {
    match FirstBar(msg)
    case None => (msg, "")
    case Some(k) =>
      assert msg == msg[..k] + "|" + msg[k + 1..];
      (msg[..k], msg[k + 1..])
  }

  /** What `poll` makes of one datagram: the stripped text, split at its first `|`. */
  function Parse(datagram: string): Message
  {
    Split(Strip(datagram))
  }

  /** `Parse` over a run of datagrams, in order. */
  function ParseAll(datagrams: seq<string>): (msgs: seq<Message>)
    ensures |msgs| == |datagrams|
    ensures forall i :: 0 <= i < |datagrams| ==> msgs[i] == Parse(datagrams[i])
  {
    seq(|datagrams|, i requires 0 <= i < |datagrams| => Parse(datagrams[i]))
  }

  /** `ParseAll` grows by one message per datagram. */
  lemma ParseAllSnoc(datagrams: seq<string>, i: int)
    requires 0 <= i < |datagrams|
    ensures ParseAll(datagrams[..i + 1]) == ParseAll(datagrams[..i]) + [Parse(datagrams[i])]
  {
    assert datagrams[..i + 1][..i] == datagrams[..i];
  }

  /**
   * Reading back a frame gives the type and payload sent, when the type has
   * no `|` and the frame has no whitespace at its ends to be stripped.
   */
  lemma ParseFrame(msgType: string, payload: string)
    requires '|' !in msgType && Trimmed(Frame(msgType, payload))
    ensures Parse(Frame(msgType, payload)) == (msgType, payload)
  {
    FrameLayout(msgType, payload);
    StripTrimmed(Frame(msgType, payload));
    var m := Split(Frame(msgType, payload));
    if payload != "" {
      assert '|' in Frame(msgType, payload) by {
        assert Frame(msgType, payload)[|msgType|] == '|';
      }
      assert msgType + "|" + payload == m.0 + "|" + m.1;
      SplitUnique(msgType, payload, m.0, m.1);
    }
  }

  /** Joining at a `|` the left part does not contain can be undone only one way. */
  lemma SplitUnique(a: string, b: string, c: string, d: string)
    requires '|' !in a && '|' !in c && a + "|" + b == c + "|" + d
    ensures a == c && b == d
  {
    var s := a + "|" + b;
    assert |a| <= |c| by {
      assert forall k :: 0 <= k < |a| ==> a[k] != '|';
      assert (c + "|" + d)[|c|] == '|';
    }
    assert |c| <= |a| by {
      assert forall k :: 0 <= k < |c| ==> c[k] != '|';
      assert s[|a|] == '|';
    }
    assert a == s[..|a|] == c;
    assert b == s[|a| + 1..] == d;
  }

  /**
   * The type survives the round trip whatever the payload, when it is
   * non-empty, has no `|` and starts with no whitespace, and the payload is
   * not empty.
   */
  lemma ParseFrameType(msgType: string, payload: string)
    requires '|' !in msgType && msgType != [] && !IsSpace(msgType[0]) && payload != ""
    ensures Parse(Frame(msgType, payload)).0 == msgType
    ensures exists j ::
      (0 <= j <= |payload| && Parse(Frame(msgType, payload)).1 == payload[..j]
       && forall k :: j <= k < |payload| ==> IsSpace(payload[k]))
  {
    var f := Frame(msgType, payload);
    FrameLayout(msgType, payload);
    var s := Strip(f);
    StripSlice(f);
    var i, j :| Core(f, i, j) && s == f[i..j];
    assert f[0] == msgType[0] && f[|msgType|] == '|';
    assert i == 0;
    assert j > |msgType|;
    assert s == msgType + "|" + f[|msgType| + 1..j];
    assert s[|msgType|] == '|';
    SplitUnique(msgType, f[|msgType| + 1..j], Split(s).0, Split(s).1);
    assert f[|msgType| + 1..j] == payload[..j - |msgType| - 1];
    assert forall k :: j - |msgType| - 1 <= k < |payload| ==> payload[k] == f[k + |msgType| + 1];
  }

  /**
   * A frame read back keeps every payload character up to the last one
   * that is not whitespace: here, the first `n`.
   */
  lemma ParseFramePrefix(msgType: string, payload: string, n: nat)
    requires '|' !in msgType && msgType != [] && !IsSpace(msgType[0])
    requires 0 < n <= |payload| && !IsSpace(payload[n - 1])
    ensures Parse(Frame(msgType, payload)).0 == msgType
    ensures |Parse(Frame(msgType, payload)).1| >= n && Parse(Frame(msgType, payload)).1[..n] == payload[..n]
  {
    ParseFrameType(msgType, payload);
    var j :| 0 <= j <= |payload| && Parse(Frame(msgType, payload)).1 == payload[..j]
      && forall k :: j <= k < |payload| ==> IsSpace(payload[k]);
    assert n <= j;
  }

  /** Framing what was parsed gives back the stripped datagram, except that a `|` with nothing after it is lost. */
  lemma FrameParse(datagram: string)
    ensures var m := Parse(datagram);
      Frame(m.0, m.1) == Strip(datagram) || Frame(m.0, m.1) + "|" == Strip(datagram)
  {
    var s := Strip(datagram);
    var m := Split(s);
    if '|' in s && m.1 == "" {
      assert s == m.0 + "|";
    }
  }

  /** network.py's `NetworkClient`. */
  class NetworkClient {
    /** The port the client listens on. */
    const pythonPort: int
    /** The bridge's port, where datagrams are sent. */
    const bridgePort: int
    var connected: bool
    /** Messages received and not yet consumed, oldest first. */
    var inbox: seq<Message>
    /** When the last datagram arrived. */
    var lastMsgTime: int
    /** Every datagram sent, oldest first. */
    var outbox: seq<string>

    /** `NetworkClient(python_port, my_port)` at time `now`: not connected, nothing received. */
    constructor (pythonPort: int, myPort: int, now: int)
      ensures this.pythonPort == pythonPort && bridgePort == myPort
      ensures !connected && inbox == [] && lastMsgTime == now && outbox == []
    {
      this.pythonPort := pythonPort;
      bridgePort := myPort;
      connected := false;
      inbox := [];
      lastMsgTime := now;
      outbox := [];
    }

    /**
     * One turn of `poll`'s receive loop, at time `now`: the datagram becomes
     * one more inbox message, the silence clock restarts and the link is
     * marked alive.
     */
    method Receive(datagram: string, now: int)
      modifies this`inbox, this`lastMsgTime, this`connected
      ensures inbox == old(inbox) + [Parse(datagram)]
      ensures lastMsgTime == now && connected
    {
      var s := Strip(datagram);
      var msg := Split(s);
      inbox := inbox + [msg];
      lastMsgTime := now;
      if !connected {
        connected := true;
      }
    }

    /**
     * `poll` at time `now`, with `datagrams` waiting on the socket: each one
     * adds exactly one message to the inbox, in arrival order; any datagram
     * marks the link alive and restarts the silence clock; then a link
     * silent for more than 2 s is marked lost.
     */
    method Poll(datagrams: seq<string>, now: int)
      modifies this`inbox, this`lastMsgTime, this`connected
      ensures inbox == old(inbox) + ParseAll(datagrams)
      ensures lastMsgTime == if datagrams == [] then old(lastMsgTime) else now
      ensures connected == if datagrams == [] then old(connected) && now - old(lastMsgTime) <= LivenessTimeout else true
    {
      for i := 0 to |datagrams|
        invariant inbox == old(inbox) + ParseAll(datagrams[..i])
        invariant lastMsgTime == if i == 0 then old(lastMsgTime) else now
        invariant connected == if i == 0 then old(connected) else true
      {
        ParseAllSnoc(datagrams, i);
        Receive(datagrams[i], now);
      }
      assert datagrams[..|datagrams|] == datagrams;
      if connected && now - lastMsgTime > LivenessTimeout {
        connected := false;
      }
    }

    /** `send`: one datagram, framed. */
    method Send(msgType: string, payload: string)
      modifies this`outbox
      ensures outbox == old(outbox) + [Frame(msgType, payload)]
    {
      outbox := outbox + [Frame(msgType, payload)];
    }

    /** `consume_messages`: everything received, in order; the inbox is left empty. */
    method ConsumeMessages() returns (msgs: seq<Message>)
      modifies this`inbox
      ensures msgs == old(inbox) && inbox == []
    {
      msgs := inbox;
      inbox := [];
    }
  }

  /** The entry a ledger has for `r`, or 0: `resources.get(r, 0)`. */
  function Get(ledger: map<Resource, int>, r: Resource): int
  {
    if r in ledger then ledger[r] else 0
  }

  /** The payload of a unit's `UNIT_UPDATE`; it repeats the type and a `|` before the fields. */
  function UnitPayload(u: Units.Unit): string
    reads u
  {
    "UNIT_UPDATE|id:" + IntToString(u.networkId) + ",type:" + u.unitType + ",x:" + IntToString(u.x)
    + ",y:" + IntToString(u.y) + ",owner:" + u.owner
  }

  /** The payload of the `RESOURCES` message. */
  function ResourcesPayload(ledger: map<Resource, int>): string
  {
    "wood:" + IntToString(Get(ledger, Wood)) + ",gold:" + IntToString(Get(ledger, Gold))
    + ",food:" + IntToString(Get(ledger, Food))
  }

  /** The payload of a building's `BUILDING_STATE`. */
  function BuildingPayload(b: Building): string
  {
    "type:" + KindName(b.kind) + ",x:" + IntToString(b.x) + ",y:" + IntToString(b.y) + ",owner:" + b.owner
  }

  /** One datagram of type `msgType` per payload, in order. */
  function Framed(msgType: string, payloads: seq<string>): (msgs: seq<string>)
    ensures |msgs| == |payloads|
    ensures forall i :: 0 <= i < |payloads| ==> msgs[i] == Frame(msgType, payloads[i])
  {
    seq(|payloads|, i requires 0 <= i < |payloads| => Frame(msgType, payloads[i]))
  }

  /** `Framed` grows by one datagram per payload. */
  lemma FramedStep(msgType: string, payloads: seq<string>, i: int)
    requires 0 <= i < |payloads|
    ensures Framed(msgType, payloads[..i + 1]) == Framed(msgType, payloads[..i]) + [Frame(msgType, payloads[i])]
  {
    assert payloads[..i + 1][..i] == payloads[..i];
  }

  /** The payloads of the units' `UNIT_UPDATE` datagrams, in order. */
  function UnitPayloads(units: seq<Units.Unit>): (ps: seq<string>)
    reads set u | u in units
    ensures |ps| == |units|
    ensures forall i :: 0 <= i < |units| ==> ps[i] == UnitPayload(units[i])
  {
    seq(|units|, i requires 0 <= i < |units| reads units => UnitPayload(units[i]))
  }

  /** The payloads of the buildings' `BUILDING_STATE` datagrams, in order. */
  function BuildingPayloads(buildings: seq<Building>): (ps: seq<string>)
    ensures |ps| == |buildings|
    ensures forall i :: 0 <= i < |buildings| ==> ps[i] == BuildingPayload(buildings[i])
  {
    seq(|buildings|, i requires 0 <= i < |buildings| => BuildingPayload(buildings[i]))
  }

  /** One `UNIT_UPDATE` datagram per unit, in order. */
  function UnitFrames(units: seq<Units.Unit>): seq<string>
    reads set u | u in units
  {
    Framed("UNIT_UPDATE", UnitPayloads(units))
  }

  /** One `BUILDING_STATE` datagram per building, in order. */
  function BuildingFrames(buildings: seq<Building>): seq<string>
  {
    Framed("BUILDING_STATE", BuildingPayloads(buildings))
  }

  /** The `RESOURCES` datagram, sent only when there is an AI and its ledger is not empty. */
  function ResourceFrames(ledger: Option<map<Resource, int>>): (msgs: seq<string>)
    ensures |msgs| == if HasLedger(ledger) then 1 else 0
  {
    if HasLedger(ledger) then [Frame("RESOURCES", ResourcesPayload(ledger.value))] else []
  }

  /** `ai and ai.resources`: there is an AI and its ledger is not empty. */
  predicate HasLedger(ledger: Option<map<Resource, int>>)
  {
    ledger.Some? && |ledger.value| > 0
  }

  /** Everything `send_game_state_to_c` sends, in order. */
  function StateFrames(units: seq<Units.Unit>, buildings: seq<Building>, ledger: Option<map<Resource, int>>): seq<string>
    reads set u | u in units
  {
    UnitFrames(units) + ResourceFrames(ledger) + BuildingFrames(buildings)
  }

  /** The datagrams for the game state held by `units`, `buildings` and the ledger of `ai`, if any. */
  function GameStateFrames(units: seq<Units.Unit>, buildings: seq<Building>, ai: Economy.AI?): seq<string>
    reads (set u | u in units), ai
  {
    StateFrames(units, buildings, if ai != null then Some(ai.resources) else None)
  }

  /** A unit's payload starts with its message type and a `|`. */
  lemma UnitPayloadPrefix(u: Units.Unit)
    ensures |UnitPayload(u)| >= 12 && UnitPayload(u)[..12] == "UNIT_UPDATE|"
  {
  }

  /** `msg` reads back as a `UNIT_UPDATE` whose payload starts with `UNIT_UPDATE|` again. */
  predicate UnitUpdateRead(msg: string)
  {
    var m := Parse(msg);
    m.0 == "UNIT_UPDATE" && |m.1| >= 12 && m.1[..12] == "UNIT_UPDATE|"
  }

  /** A `UNIT_UPDATE` frame whose payload starts with `UNIT_UPDATE|` keeps that start when read back. */
  lemma PrefixedFrameRead(payload: string)
    requires |payload| >= 12 && payload[..12] == "UNIT_UPDATE|"
    ensures UnitUpdateRead(Frame("UNIT_UPDATE", payload))
  {
    assert payload[11] == '|';
    ParseFramePrefix("UNIT_UPDATE", payload, 12);
  }

  /** Every `UNIT_UPDATE` datagram reads back as that type, its payload starting with `UNIT_UPDATE|` again. */
  lemma UnitFramesRead(units: seq<Units.Unit>)
    ensures forall i :: 0 <= i < |units| ==> UnitUpdateRead(UnitFrames(units)[i])
  {
    var ps := UnitPayloads(units);
    forall i | 0 <= i < |units|
      ensures UnitUpdateRead(UnitFrames(units)[i])
    {
      UnitPayloadPrefix(units[i]);
      PrefixedFrameRead(ps[i]);
    }
  }

  /** Every `BUILDING_STATE` datagram reads back as that type. */
  lemma BuildingFramesRead(buildings: seq<Building>)
    ensures forall i :: 0 <= i < |buildings| ==> Parse(BuildingFrames(buildings)[i]).0 == "BUILDING_STATE"
  {
    var ps := BuildingPayloads(buildings);
    var t := "BUILDING_STATE";
    assert '|' !in t && t != [] && !IsSpace(t[0]);
    forall i | 0 <= i < |buildings|
      ensures Parse(BuildingFrames(buildings)[i]).0 == t
    {
      assert ps[i][0] == 't';
      ParseFrameType(t, ps[i]);
    }
  }

  /** Where the elements of a three-part concatenation come from. */
  lemma ConcatAt<T>(x: seq<T>, y: seq<T>, z: seq<T>)
    ensures forall i :: 0 <= i < |x| ==> (x + y + z)[i] == x[i]
    ensures forall i :: |x| <= i < |x| + |y| ==> (x + y + z)[i] == y[i - |x|]
    ensures forall i :: |x| + |y| <= i < |x| + |y| + |z| ==> (x + y + z)[i] == z[i - |x| - |y|]
  {
  }

  /**
   * What the bridge reads out of the game state: one `UNIT_UPDATE` per unit,
   * in order, whose payload starts with `UNIT_UPDATE|` again; then one
   * `RESOURCES` exactly when there is a non-empty ledger; then one
   * `BUILDING_STATE` per building, in order.
   */
  lemma StateFramesRead(units: seq<Units.Unit>, buildings: seq<Building>, ledger: Option<map<Resource, int>>)
    ensures |StateFrames(units, buildings, ledger)| == |units| + (if HasLedger(ledger) then 1 else 0) + |buildings|
    ensures forall i :: 0 <= i < |units| ==> UnitUpdateRead(StateFrames(units, buildings, ledger)[i])
    ensures HasLedger(ledger) ==> Parse(StateFrames(units, buildings, ledger)[|units|]).0 == "RESOURCES"
    ensures forall i :: |units| + (if HasLedger(ledger) then 1 else 0) <= i < |StateFrames(units, buildings, ledger)| ==>
      Parse(StateFrames(units, buildings, ledger)[i]).0 == "BUILDING_STATE"
  {
    var us, rs, bs := UnitFrames(units), ResourceFrames(ledger), BuildingFrames(buildings);
    ConcatAt(us, rs, bs);
    UnitFramesRead(units);
    BuildingFramesRead(buildings);
    if HasLedger(ledger) {
      ParseFrameType("RESOURCES", ResourcesPayload(ledger.value));
    }
  }

  /**
   * `send_game_state_to_c`: the datagrams of `GameStateFrames`, sent in order
   * through `network`.  With no client the source's first `send` fails and
   * the error is swallowed, so nothing is sent.
   */
  method SendGameStateToC(network: NetworkClient?, units: seq<Units.Unit>, buildings: seq<Building>, ai: Economy.AI?)
    modifies network
    ensures network != null ==>
      network.outbox == old(network.outbox) + old(GameStateFrames(units, buildings, ai))
      && network.inbox == old(network.inbox) && network.connected == old(network.connected)
      && network.lastMsgTime == old(network.lastMsgTime)
  {
    if network == null {
      return;
    }
    ghost var ledger := if ai != null then Some(ai.resources) else None;
    var unitPayloads := UnitPayloads(units);
    var buildingPayloads := BuildingPayloads(buildings);
    ghost var start := network.outbox;
    SendEach(network, "UNIT_UPDATE", unitPayloads);
    ghost var sentUnits := network.outbox;
    if ai != null && HasLedger(Some(ai.resources)) {
      network.Send("RESOURCES", ResourcesPayload(ai.resources));
    }
    assert network.outbox == sentUnits + ResourceFrames(ledger);
    SendEach(network, "BUILDING_STATE", buildingPayloads);
    Regroup(start, Framed("UNIT_UPDATE", unitPayloads), ResourceFrames(ledger), Framed("BUILDING_STATE", buildingPayloads));
  }

  /** One of `send_game_state_to_c`'s loops: a datagram of type `msgType` for each payload, in order. */
  method SendEach(network: NetworkClient, msgType: string, payloads: seq<string>)
    modifies network`outbox
    ensures network.outbox == old(network.outbox) + Framed(msgType, payloads)
  {
    for i := 0 to |payloads|
      invariant network.outbox == old(network.outbox) + Framed(msgType, payloads[..i])
    {
      FramedStep(msgType, payloads, i);
      network.Send(msgType, payloads[i]);
    }
    assert payloads[..|payloads|] == payloads;
  }

  lemma Regroup<T>(a: seq<T>, b: seq<T>, c: seq<T>, d: seq<T>)
    ensures a + b + c + d == a + (b + c + d)
  {
  }
}
