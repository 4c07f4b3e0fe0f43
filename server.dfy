/** The server's event handling (server.js): start-up seeding of the status table, the
    broker's `published` handler, the hydration a new dashboard connection receives, the
    relay of dashboard triggers to the broker, the broker-client liveness notices and the
    time beacon. The database, the socket server and the broker appear as the fields they
    change: the status table, the two reading logs, and two outboxes. */
module Server {
  import opened Optional
  import opened Text
  import opened Statuses
  import opened Protocol
  import opened Hydration

  const PAYLOAD_SEPARATOR: char := '|'

  // ---------------------------------------------------------------------------
  // `coop/status` payloads

  /** `data[0]`: the device id a status payload names, a separator-free prefix of it. */
  function PayloadName(payload: string): (name: string)
    ensures name <= payload
    ensures PAYLOAD_SEPARATOR !in name
  {
    SplitHead(payload, PAYLOAD_SEPARATOR);
    Split(payload, PAYLOAD_SEPARATOR)[0]
  }

  /** `data[1]`: the state a status payload carries, `undefined` without a separator;
      it never contains the separator. */
  function PayloadState(payload: string): (state: Option<string>)
    ensures state.Some? <==> PAYLOAD_SEPARATOR in payload
    ensures state.Some? ==> PAYLOAD_SEPARATOR !in state.value
  {
    var parts := Split(payload, PAYLOAD_SEPARATOR);
    SplitHead(payload, PAYLOAD_SEPARATOR);
    SplitPiecesFree(payload, PAYLOAD_SEPARATOR);
    if |parts| > 1 then
      assert parts[1] in parts;
      Some(parts[1])
    else None
  }

  /** The id is the text before the first separator, and a state is present exactly when
      the payload has a separator. */
  lemma PayloadFields(payload: string)
    ensures PayloadName(payload) <= payload
    ensures PAYLOAD_SEPARATOR !in PayloadName(payload)
    ensures |PayloadName(payload)| < |payload| ==> payload[|PayloadName(payload)|] == PAYLOAD_SEPARATOR
    ensures PayloadState(payload).Some? <==> PAYLOAD_SEPARATOR in payload
  {
    SplitHead(payload, PAYLOAD_SEPARATOR);
  }

  /** A payload built as `key|state` from separator-free parts reads back as that key and state. */
  lemma StatusPayloadRoundTrip(key: string, state: string)
    requires PAYLOAD_SEPARATOR !in key && PAYLOAD_SEPARATOR !in state
    ensures PayloadName(key + [PAYLOAD_SEPARATOR] + state) == key
    ensures PayloadState(key + [PAYLOAD_SEPARATOR] + state) == Some(state)
  {
    SplitJoin([key, state], PAYLOAD_SEPARATOR);
    assert Join([key, state], PAYLOAD_SEPARATOR) == key + [PAYLOAD_SEPARATOR] + Join([state], PAYLOAD_SEPARATOR);
  }

  /** The payload carries a state the record definition admits, so the upsert writes a row. */
  predicate WritesRow(payload: string)
  {
    PayloadState(payload).Some? && Parse(PayloadState(payload).value).Some?
  }

  /** The status table after a `coop/status` packet with `payload` arrives at `now`: the
      row it names becomes its state stamped `now` (last writer wins); a payload whose
      state is missing or outside the enumeration is refused by the record and changes
      nothing; no other row changes. */
  function IngestStatus(table: StatusTable, payload: string, now: int): (t: StatusTable)
    ensures forall k :: k != PayloadName(payload) ==> (k in t <==> k in table)
    ensures forall k :: k in table && k != PayloadName(payload) ==> t[k] == table[k]
    ensures WritesRow(payload) ==>
      (&& PayloadName(payload) in t
       && Name(t[PayloadName(payload)].status) == PayloadState(payload).value
       && t[PayloadName(payload)].updatedAt == now)
    ensures !WritesRow(payload) ==> t == table
  {
    match ValidateRow(PayloadState(payload), now)
    case Success(row) => Upsert(table, PayloadName(payload), row)
    case Failure(_) => table
  }

  /** A `coop/status` packet and the time it arrived. */
  datatype StatusEvent = StatusEvent(payload: string, at: int)

  /** The status table after a run of `coop/status` packets, in arrival order. */
  function IngestAll(table: StatusTable, events: seq<StatusEvent>): StatusTable
    decreases |events|
  {
    if events == [] then table
    else
      var last := events[|events| - 1];
      IngestStatus(IngestAll(table, events[..|events| - 1]), last.payload, last.at)
  }

  /** A row no packet of the run writes keeps what it had, or stays absent. */
  lemma {:induction false} UnwrittenRowPersists(table: StatusTable, events: seq<StatusEvent>, id: string)
    requires forall i :: 0 <= i < |events| ==> !(WritesRow(events[i].payload) && PayloadName(events[i].payload) == id)
    ensures id in IngestAll(table, events) <==> id in table
    ensures id in table ==> IngestAll(table, events)[id] == table[id]
    decreases |events|
  {
    if events != [] {
      UnwrittenRowPersists(table, events[..|events| - 1], id);
    }
  }

  /** Last writer wins: the row for `id` holds the state of the last packet of the run
      that writes it, stamped with that packet's arrival time, whatever came before. */
  lemma {:induction false} LastWriterWins(table: StatusTable, events: seq<StatusEvent>, i: nat, id: string)
    requires i < |events|
    requires WritesRow(events[i].payload) && PayloadName(events[i].payload) == id
    requires forall j :: i < j < |events| ==> !(WritesRow(events[j].payload) && PayloadName(events[j].payload) == id)
    ensures id in IngestAll(table, events)
    ensures Name(IngestAll(table, events)[id].status) == PayloadState(events[i].payload).value
    ensures IngestAll(table, events)[id].updatedAt == events[i].at
    decreases |events|
  {
    if i < |events| - 1 {
      LastWriterWins(table, events[..|events| - 1], i, id);
    }
  }

  /** How a status row appears in hydration: `{name: id, status, updated}`, with
      `updatedAt` turned from milliseconds into whole seconds. */
  function RowView(id: string, row: StatusRow): (v: StatusView)
    ensures v.name == id
    ensures Parse(v.status) == Some(row.status)
    ensures v.updated * 1000 <= row.updatedAt < v.updated * 1000 + 1000
  {
    ParseName(row.status);
    StatusView(id, Name(row.status), row.updatedAt / 1000)
  }

  /** `parseInt(moment().format('X')) + tzOffset`: whole local seconds, where `offset` is
      the local zone's distance east of UTC in seconds. */
  function LocalSeconds(nowMs: int, offset: int): (s: int)
    ensures (s - offset) * 1000 <= nowMs < (s - offset + 1) * 1000
  {
    nowMs / 1000 + offset
  }

  class Bridge {
    /** The Status table, by id. */
    var statuses: StatusTable
    /** The Temperature and Brightness tables, in insertion order. */
    var temperatures: seq<Reading>
    var brightness: seq<Reading>
    /** Every `primus.write` to all dashboards, oldest first. */
    var broadcasts: seq<SocketMessage>
    /** Every `mqttServer.publish`, oldest first. */
    var published: seq<MqttMessage>

    /** The configured broker client id (`config.mqtt.client.id`). */
    const clientId: string
    /** The configured sunrise and sunset hours. */
    const sunRise: int
    const sunSet: int
    /** Seconds east of UTC, fixed at start-up (`getTimezoneOffset() * 60 * -1`). */
    const tzOffset: int

    /** A bridge over tables that may already hold rows from earlier runs. */
    constructor (stored: StatusTable, storedTemperatures: seq<Reading>, storedBrightness: seq<Reading>,
                 clientId: string, sunRise: int, sunSet: int, timezoneOffsetMinutes: int)
      ensures statuses == stored
      ensures temperatures == storedTemperatures && brightness == storedBrightness
      ensures broadcasts == [] && published == []
      ensures this.clientId == clientId && this.sunRise == sunRise && this.sunSet == sunSet
      ensures tzOffset == -(timezoneOffsetMinutes * 60)
    {
      statuses := stored;
      temperatures := storedTemperatures;
      brightness := storedBrightness;
      broadcasts := [];
      published := [];
      this.clientId := clientId;
      this.sunRise := sunRise;
      this.sunSet := sunSet;
      tzOffset := -(timezoneOffsetMinutes * 60);
    }

    /** Start-up seeding: every configured id that has no row in the table as it stood
        before seeding gets a row with its configured default, provided the record admits
        that default; rows already present keep their status. */
    method SeedDefaults(defaults: map<string, string>, now: int)
      modifies this
      ensures forall id :: id in statuses <==>
        id in old(statuses) || (id in defaults && ValidateRow(Some(defaults[id]), now).Success?)
      ensures forall id :: id in old(statuses) ==> statuses[id] == old(statuses)[id]
      ensures forall id :: id in statuses && id !in old(statuses) ==>
        Name(statuses[id].status) == defaults[id] && statuses[id].updatedAt == now
      ensures temperatures == old(temperatures) && brightness == old(brightness)
      ensures broadcasts == old(broadcasts) && published == old(published)
    {
      var existing := statuses;
      var pending := defaults.Keys;
      while pending != {}
        invariant pending <= defaults.Keys
        invariant forall id :: id in statuses <==>
          id in existing || (id in defaults && id !in pending && ValidateRow(Some(defaults[id]), now).Success?)
        invariant forall id :: id in existing ==> statuses[id] == existing[id]
        invariant forall id :: id in statuses && id !in existing ==>
          Name(statuses[id].status) == defaults[id] && statuses[id].updatedAt == now
        invariant temperatures == old(temperatures) && brightness == old(brightness)
        invariant broadcasts == old(broadcasts) && published == old(published)
        decreases pending
      {
        var id :| id in pending;
        if id !in existing {
          match ValidateRow(Some(defaults[id]), now) {
            case Success(row) => statuses := statuses[id := row];
            case Failure(_) =>
          }
        }
        pending := pending - {id};
      }
    }

    /** The broker's `published` handler for a packet arriving at `now`. `parseFloat` and
        `parseInt` decode reading payloads. A temperature or brightness packet appends
        one reading to that channel's log only and broadcasts the same value; a status
        packet upserts the row it names and broadcasts its name and state; any other
        topic changes nothing. */
    method OnPublished(packet: Packet, now: int, parseFloat: string -> Value, parseInt: string -> Value)
      modifies this
      ensures packet.topic == TEMPERATURE_TOPIC ==>
        && temperatures == old(temperatures) + [Reading(now, parseFloat(packet.payload))]
        && brightness == old(brightness) && statuses == old(statuses)
        && broadcasts == old(broadcasts) + [TempUpdate(parseFloat(packet.payload))]
      ensures packet.topic == BRIGHTNESS_TOPIC ==>
        && brightness == old(brightness) + [Reading(now, parseInt(packet.payload))]
        && temperatures == old(temperatures) && statuses == old(statuses)
        && broadcasts == old(broadcasts) + [LightUpdate(parseInt(packet.payload))]
      ensures packet.topic == STATUS_TOPIC ==>
        && statuses == IngestStatus(old(statuses), packet.payload, now)
        && temperatures == old(temperatures) && brightness == old(brightness)
        && broadcasts == old(broadcasts)
             + [StatusUpdate(PayloadName(packet.payload), PayloadState(packet.payload), now / 1000)]
      ensures packet.topic !in {TEMPERATURE_TOPIC, BRIGHTNESS_TOPIC, STATUS_TOPIC} ==>
        && statuses == old(statuses)
        && temperatures == old(temperatures) && brightness == old(brightness)
        && broadcasts == old(broadcasts)
      ensures published == old(published)
    {
      if packet.topic == TEMPERATURE_TOPIC {
        temperatures := temperatures + [Reading(now, parseFloat(packet.payload))];
        broadcasts := broadcasts + [TempUpdate(parseFloat(packet.payload))];
      } else if packet.topic == BRIGHTNESS_TOPIC {
        brightness := brightness + [Reading(now, parseInt(packet.payload))];
        broadcasts := broadcasts + [LightUpdate(parseInt(packet.payload))];
      } else if packet.topic == STATUS_TOPIC {
        var data := Split(packet.payload, PAYLOAD_SEPARATOR);
        var state := if |data| > 1 then Some(data[1]) else None;
        match ValidateRow(state, now) {
          case Success(row) => statuses := statuses[data[0] := row];
          case Failure(_) =>
        }
        broadcasts := broadcasts + [StatusUpdate(data[0], state, now / 1000)];
      }
    }

    /** The brightness history a new connection receives. */
    function LightHydration(now: int): (m: SocketMessage)
      reads this
      ensures m.LightReadingsMessage?
      ensures Ascending(m.lightReadings) && |m.lightReadings| <= HYDRATION_LIMIT
      ensures forall x :: x in m.lightReadings ==> x in brightness && x.createdAt > now - DAY_MS
    {
      LightReadingsMessage(Recent(brightness, now))
    }

    /** The temperature history a new connection receives. */
    function TempHydration(now: int): (m: SocketMessage)
      reads this
      ensures m.TempReadingsMessage?
      ensures Ascending(m.tempReadings) && |m.tempReadings| <= HYDRATION_LIMIT
      ensures forall x :: x in m.tempReadings ==> x in temperatures && x.createdAt > now - DAY_MS
    {
      TempReadingsMessage(Recent(temperatures, now))
    }

    /** The status snapshot a new connection receives: every row exactly once, by id
        ascending, each as its name, status and update time. */
    method HydrateStatuses() returns (data: seq<StatusView>)
      ensures forall i, j :: 0 <= i < j < |data| ==> Below(data[i].name, data[j].name)
      ensures (set v | v in data :: v.name) == statuses.Keys
      ensures forall v :: v in data ==> v.name in statuses && v == RowView(v.name, statuses[v.name])
    {
      data := [];
      var pending := statuses.Keys;
      while pending != {}
        invariant pending <= statuses.Keys
        invariant (set v | v in data :: v.name) == statuses.Keys - pending
        invariant forall i, j :: 0 <= i < j < |data| ==> Below(data[i].name, data[j].name)
        invariant forall i, o :: 0 <= i < |data| && o in pending ==> Below(data[i].name, o)
        invariant forall v :: v in data ==> v.name in statuses && v == RowView(v.name, statuses[v.name])
        decreases pending
      {
        ghost var least := LeastExists(pending);
        var id :| id in pending && forall o :: o in pending && o != id ==> Below(id, o);
        var view := RowView(id, statuses[id]);
        assert (set v | v in data + [view] :: v.name) == (set v | v in data :: v.name) + {id};
        data := data + [view];
        pending := pending - {id};
      }
    }

    /** A dashboard's message: one carrying `remoteTrigger` is published to
        `coop/remotetrigger` as it stands (qos 2, not retained) without checking the
        device; any other message publishes nothing. Nothing else changes. */
    method OnSocketData(message: ClientMessage)
      modifies this
      ensures published == old(published) +
        (if message.remoteTrigger.Some?
         then [MqttMessage(REMOTE_TRIGGER_TOPIC, message.remoteTrigger.value, 2, false)]
         else [])
      ensures statuses == old(statuses) && broadcasts == old(broadcasts)
      ensures temperatures == old(temperatures) && brightness == old(brightness)
    {
      if message.remoteTrigger.Some? {
        published := published + [MqttMessage(REMOTE_TRIGGER_TOPIC, message.remoteTrigger.value, 2, false)];
      }
    }

    /** A broker client connected: dashboards hear `Online` only when it is the configured
        client; every connection republishes the sunrise and sunset hours. */
    method OnClientConnected(id: string)
      modifies this
      ensures broadcasts == old(broadcasts) + (if id == clientId then [ClientStatusMessage("Online")] else [])
      ensures published == old(published) + [
        MqttMessage(SUN_RISE_TOPIC, IntToDecimal(sunRise), 2, false),
        MqttMessage(SUN_SET_TOPIC, IntToDecimal(sunSet), 2, false)]
      ensures statuses == old(statuses)
      ensures temperatures == old(temperatures) && brightness == old(brightness)
    {
      if id == clientId {
        broadcasts := broadcasts + [ClientStatusMessage("Online")];
      }
      published := published + [
        MqttMessage(SUN_RISE_TOPIC, IntToDecimal(sunRise), 2, false),
        MqttMessage(SUN_SET_TOPIC, IntToDecimal(sunSet), 2, false)];
    }

    /** A broker client disconnected: dashboards hear `Offline` only for the configured client. */
    method OnClientDisconnected(id: string)
      modifies this
      ensures broadcasts == old(broadcasts) + (if id == clientId then [ClientStatusMessage("Offline")] else [])
      ensures published == old(published) && statuses == old(statuses)
      ensures temperatures == old(temperatures) && brightness == old(brightness)
    {
      if id == clientId {
        broadcasts := broadcasts + [ClientStatusMessage("Offline")];
      }
    }

    /** One tick of the time beacon: local whole seconds, as decimal text, on
        `time/beacon` with qos 0, not retained. */
    method TimeBeacon(nowMs: int)
      modifies this
      ensures published == old(published) +
        [MqttMessage(TIME_BEACON_TOPIC, IntToDecimal(LocalSeconds(nowMs, tzOffset)), 0, false)]
      ensures broadcasts == old(broadcasts) && statuses == old(statuses)
      ensures temperatures == old(temperatures) && brightness == old(brightness)
    {
      published := published + [MqttMessage(TIME_BEACON_TOPIC, IntToDecimal(nowMs / 1000 + tzOffset), 0, false)];
    }
  }
}
